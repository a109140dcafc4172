/** The serial unit and its devices as the emulator keeps them: arrays and fields updated in place. */
module SerialUnit {
  import opened Words
  import opened H8
  import opened Machine
  import LcdProtocol
  import Ssu

  /** How a tick ends: normally, with the emulator giving up, or with an access that no device memory has. */
  datatype Ending = Goes | GivesUp | Overruns

  /** How a tick ended, and on what value. */
  function Ended<T>(ending: Ending, value: T): Ssu.Outcome<T> {
    match ending
    case Goes => Ssu.Ran(value)
    case GivesUp => Ssu.GaveUp
    case Overruns => Ssu.OutOfBounds
  }

  class Unit {
    const memory: array<u8>
    const eepromMemory: array<u8>
    const accelMemory: array<u8>
    const lcdMemory: array<u8>
    var progress: u8
    var status: u8
    var high: u8
    var low: u8
    var phase: Ssu.Phase
    var offset: u16
    var accelAddress: u8
    var accelOffset: u8
    var gettingBytes: bool
    var contrast: u8
    var readingContrast: bool
    var column: u8
    var page: u8
    var byte: u8
    var secondBuffer: bool

    /** The power-on state over a given memory and EEPROM image. */
    constructor (memory: array<u8>, image: array<u8>)
      requires memory.Length == MEM_SIZE && image.Length == Ssu.EEPROM_SIZE
      ensures Valid() && this.memory == memory && fresh(eepromMemory) && fresh(accelMemory) && fresh(lcdMemory)
      ensures PeripheralsValue() == PowerOn(image[..])
    {
      this.memory := memory;
      eepromMemory := new u8[Ssu.EEPROM_SIZE](i requires 0 <= i < Ssu.EEPROM_SIZE reads image => image[i]);
      accelMemory := new u8[Ssu.ACCEL_SIZE](i => if i == 0 then 2 else 0);
      lcdMemory := new u8[Ssu.LCD_SIZE](_ => 0);
      progress, status, high, low, phase, offset := 0, 0, 0, 0, Ssu.Empty, 0;
      accelAddress, accelOffset, gettingBytes := 0, 0, false;
      contrast, readingContrast, column, page, byte, secondBuffer := 20, false, 0, 0, 0, false;
      new;
      assert eepromMemory[..] == image[..];
      assert accelMemory[..] == AccelMemory();
      assert lcdMemory[..] == LcdMemory();
    }

    method RestartMemories(image: array<u8>)
      requires Valid() && image.Length == Ssu.EEPROM_SIZE
      requires image != eepromMemory && image != accelMemory && image != lcdMemory
      modifies eepromMemory, accelMemory, lcdMemory
      ensures eepromMemory[..] == old(image[..])
      ensures accelMemory[..] == AccelMemory() && lcdMemory[..] == LcdMemory()
    {
      forall i | 0 <= i < Ssu.EEPROM_SIZE {
        eepromMemory[i] := image[i];
      }
      forall i | 0 <= i < Ssu.ACCEL_SIZE {
        accelMemory[i] := if i == 0 then 2 else 0;
      }
      forall i | 0 <= i < Ssu.LCD_SIZE {
        lcdMemory[i] := 0;
      }
      assert eepromMemory[..] == old(image[..]);
      assert accelMemory[..] == AccelMemory();
      assert lcdMemory[..] == LcdMemory();
    }

    method RestartEeprom()
      modifies this`status, this`high, this`low, this`phase, this`offset
      ensures EepromValue() == Ssu.Eeprom(eepromMemory[..], 0, 0, 0, Ssu.Empty, 0)
    {
      status, high, low, phase, offset := 0, 0, 0, Ssu.Empty, 0;
    }

    method RestartAccel()
      modifies this`accelAddress, this`accelOffset, this`gettingBytes
      ensures AccelValue() == Ssu.Accel(accelMemory[..], 0, 0, false)
    {
      accelAddress, accelOffset, gettingBytes := 0, 0, false;
    }

    method RestartLcd()
      modifies this`contrast, this`readingContrast, this`column, this`page, this`byte, this`secondBuffer
      ensures LcdValue() == Ssu.Lcd(lcdMemory[..], 20, false, 0, 0, 0, false)
    {
      contrast, readingContrast, column, page, byte, secondBuffer := 20, false, 0, 0, 0, false;
    }

    /** Back to the power-on state with another EEPROM image. */
    method Restart(image: array<u8>)
      requires Valid() && image.Length == Ssu.EEPROM_SIZE
      requires image != eepromMemory && image != accelMemory && image != lcdMemory
      modifies this, eepromMemory, accelMemory, lcdMemory
      ensures Valid() && PeripheralsValue() == PowerOn(old(image[..]))
    {
      hide AccelMemory, LcdMemory;
      RestartMemories(image);
      progress := 0;
      RestartEeprom();
      RestartAccel();
      RestartLcd();
    }

    ghost function Bus(): Ssu.Bus
      requires memory.Length == MEM_SIZE
      reads memory
    {
      BusOf(memory[..])
    }

    ghost function EepromValue(): Ssu.Eeprom
      reads this, eepromMemory
    {
      Ssu.Eeprom(eepromMemory[..], status, high, low, phase, offset)
    }

    ghost function AccelValue(): Ssu.Accel
      reads this, accelMemory
    {
      Ssu.Accel(accelMemory[..], accelAddress, accelOffset, gettingBytes)
    }

    ghost function LcdValue(): Ssu.Lcd
      reads this, lcdMemory
    {
      Ssu.Lcd(lcdMemory[..], contrast, readingContrast, column, page, byte, secondBuffer)
    }

    ghost function PeripheralsValue(): Peripherals
      reads this, eepromMemory, accelMemory, lcdMemory
    {
      Peripherals(progress, EepromValue(), AccelValue(), LcdValue())
    }

    ghost function Value(): Ssu.Devices
      requires memory.Length == MEM_SIZE
      reads this, memory, eepromMemory, accelMemory, lcdMemory
    {
      Ssu.Devices(Bus(), progress, EepromValue(), AccelValue(), LcdValue())
    }

    ghost predicate Valid()
      reads this, memory, eepromMemory, accelMemory, lcdMemory
    {
      && memory.Length == MEM_SIZE
      && memory != eepromMemory && memory != accelMemory && memory != lcdMemory
      && eepromMemory != accelMemory && eepromMemory != lcdMemory && accelMemory != lcdMemory
      && Ssu.Ok(Value())
    }

    /** Raises status flags and leaves the other bits of the status register. */
    method RaiseStatus(rdrf: bool, tdre: bool, tend: bool)
      requires memory.Length == MEM_SIZE
      modifies memory
      ensures memory[..] == PutBus(old(memory[..]), Bus())
      ensures Bus() == WithFlags(old(Bus()), rdrf, tdre, tend)
    {
      RaisingFlags(memory[..], rdrf, tdre, tend);
      memory[SSSR] := RaiseIf(RaiseIf(RaiseIf(memory[SSSR], 0x02, rdrf), 0x04, tdre), 0x08, tend);
    }

    /** Stores the received byte. */
    method PutReceived(value: u8)
      requires memory.Length == MEM_SIZE
      modifies memory
      ensures Bus() == old(Bus()).(ssrdr := value)
      ensures memory[..] == PutBus(old(memory[..]), Bus())
    {
      ghost var b := Bus().(ssrdr := value);
      PutBusRoundTrip(memory[..], b);
      RaiseInTurn(memory[SSSR], Bus(), b, false, false, false);
      ghost var before := memory[..];
      memory[SSRDR] := value;
      assert memory[..] == PutBus(before, b);
    }

    /** Hands a byte to the program and raises all three flags. */
    method DeliverAll(value: u8)
      requires memory.Length == MEM_SIZE
      modifies memory
      ensures Bus() == old(Bus()).(ssrdr := value, rdrf := true, tdre := true, tend := true)
      ensures memory[..] == PutBus(old(memory[..]), Bus())
    {
      PutReceived(value);
      ghost var b := Bus();
      RaiseStatus(true, true, true);
      PutBusTwice(old(memory[..]), b, Bus());
    }

    /** The accelerometer's next byte, or the address to read from. */
    method ReadAccel() returns (ending: Ending)
      requires Valid()
      modifies this`accelAddress, this`accelOffset, this`gettingBytes, memory
      ensures Ended(ending, Value()) == Ssu.ReadAccel(old(Value()))
      ensures ending.Goes? ==> memory[..] == PutBus(old(memory[..]), Bus())
    {
      assert memory[SSTDR] == Bus().sstdr;
      hide PutBus, BusOf;
      if !gettingBytes {
        accelAddress := memory[SSTDR] % 0x10;
        accelOffset := 0;
        gettingBytes := true;
        RaiseStatus(true, false, false);
        return Goes;
      }
      var at: int := accelAddress as int + accelOffset as int;
      if at >= Ssu.ACCEL_SIZE {
        return Overruns;
      }
      DeliverAll(accelMemory[at]);
      accelOffset := Low8(accelOffset + 1);
      return Goes;
    }

    method WriteAccel() returns (ending: Ending)
      requires Valid()
      modifies this`accelAddress, this`gettingBytes, memory, accelMemory
      ensures Ended(ending, Value()) == Ssu.WriteAccel(old(Value()))
      ensures ending.Goes? ==> memory[..] == PutBus(old(memory[..]), Bus())
    {
      assert memory[SSTDR] == Bus().sstdr;
      hide PutBus, BusOf;
      if !gettingBytes {
        accelAddress := memory[SSTDR];
        gettingBytes := true;
        RaiseStatus(true, false, false);
        return Goes;
      }
      if accelAddress >= Ssu.ACCEL_SIZE {
        return Overruns;
      }
      accelMemory[accelAddress] := memory[SSTDR];
      RaiseStatus(true, true, true);
      return Goes;
    }

    /** READ and RDSR. */
    method ExchangeEepromByte() returns (ending: Ending)
      requires Valid()
      modifies this`high, this`low, this`phase, this`offset, memory
      ensures Ended(ending, Value()) == Ssu.ExchangeEepromByte(old(Value()))
      ensures ending.Goes? ==> memory[..] == PutBus(old(memory[..]), Bus())
    {
      assert memory[SSTDR] == Bus().sstdr;
      hide PutBus, BusOf;
      var data := memory[SSTDR];
      ghost var before := memory[..];
      match phase {
        case Empty =>
          if data == 0x3 {
            phase := Ssu.AddressHigh;
          } else if data == 0x5 {
            phase := Ssu.StatusRegister;
          }
          SameBus(before);
        case StatusRegister =>
          Deliver(status);
        case AddressHigh =>
          high := data;
          phase := Ssu.AddressLow;
          SameBus(before);
        case AddressLow =>
          low := data;
          phase := Ssu.Bytes;
          SameBus(before);
        case Bytes =>
          var at: int := high as int * 0x100 + low as int + offset as int;
          if at >= Ssu.EEPROM_SIZE {
            return Overruns;
          }
          Deliver(eepromMemory[at]);
          offset := Low16(offset + 1);
      }
      return Goes;
    }

    /** Hands a byte to the program and marks the transmission ended. */
    method Deliver(value: u8)
      requires memory.Length == MEM_SIZE
      modifies memory
      ensures Bus() == old(Bus()).(ssrdr := value, tend := true)
      ensures memory[..] == PutBus(old(memory[..]), Bus())
    {
      PutReceived(value);
      ghost var b := Bus();
      RaiseStatus(false, false, true);
      PutBusTwice(old(memory[..]), b, Bus());
    }

    /** WREN and WRITE. */
    method TransmitEepromByte() returns (ending: Ending)
      requires Valid()
      modifies this`status, this`high, this`low, this`phase, this`offset, memory, eepromMemory
      ensures Ended(ending, Value()) == Ssu.TransmitEepromByte(old(Value()))
      ensures ending.Goes? ==> memory[..] == PutBus(old(memory[..]), Bus())
    {
      assert memory[SSTDR] == Bus().sstdr;
      hide PutBus, BusOf, Raise;
      var data := memory[SSTDR];
      ghost var before := memory[..];
      match phase {
        case Empty =>
          if data == 0x6 {
            status := Raise(status, 0x2);
            RaiseStatus(false, false, true);
            return Goes;
          }
          if data == 0x2 {
            phase := Ssu.AddressHigh;
          }
          SameBus(before);
        case StatusRegister =>
          return GivesUp;
        case AddressHigh =>
          high := data;
          phase := Ssu.AddressLow;
          SameBus(before);
        case AddressLow =>
          low := data;
          phase := Ssu.Bytes;
          SameBus(before);
        case Bytes =>
          var at: int := high as int * 0x100 + low as int + offset as int;
          if at >= Ssu.EEPROM_SIZE {
            return Overruns;
          }
          eepromMemory[at] := data;
          offset := (offset + 1) % Ssu.EEPROM_PAGE;
          RaiseStatus(false, false, true);
      }
      return Goes;
    }

    /** One pixel byte. */
    method LcdData()
      requires Valid()
      modifies this`column, this`byte, memory, lcdMemory
      ensures Ssu.LcdData(old(Value())) == Ssu.Ran(Value())
      ensures memory[..] == PutBus(old(memory[..]), Bus())
    {
      assert memory[SSTDR] == Bus().sstdr;
      hide PutBus, BusOf;
      var at: int := page as int * Ssu.LCD_STRIPE + column as int * 2 + byte as int;
      assert at < Ssu.LCD_SIZE;
      lcdMemory[at] := memory[SSTDR];
      if byte == 1 {
        column := Low8(column + 1);
      }
      byte := (byte + 1) % 2;
      RaiseStatus(false, true, true);
    }

    method LcdCommand()
      requires Valid()
      modifies this`contrast, this`readingContrast, this`column, this`page, this`byte
      ensures Value() == old(Value()).(lcd := Ssu.LcdCommand(old(LcdValue()), old(memory[SSTDR])))
    {
      var command := memory[SSTDR];
      if readingContrast {
        contrast := command;
        readingContrast := false;
      } else if command < 0x10 {
        column := command + column / 0x10 * 0x10;
        byte := 0;
      } else if command < 0x18 {
        column := command % 8 * 0x10 + column % 0x10;
        byte := 0;
      } else if 0xB0 <= command < 0xC0 {
        page := command % 0x10;
      } else if command == 0x81 {
        readingContrast := true;
      }
    }

    /** Counts one shifted bit; tells whether the byte is complete. */
    method Shift() returns (complete: bool)
      requires Valid()
      modifies this`progress
      ensures Value() == Ssu.Shift(old(Value())) && complete == Ssu.ByteComplete(old(Value())) && Valid()
    {
      progress := progress + 1;
      complete := progress == Ssu.SHIFT;
      if complete {
        progress := 0;
      }
    }

    method Exchange() returns (ending: Ending)
      requires Valid()
      modifies this, memory
      ensures Ended(ending, Value()) == Ssu.Exchange(old(Value()))
      ensures ending.Goes? ==> memory[..] == PutBus(old(memory[..]), Bus())
    {
      hide PutBus, Ssu.ReadAccel, Ssu.ExchangeEepromByte;
      ghost var before := memory[..];
      if !Has(memory[PORT9], 0x01) {
        ending := ReadAccel();
        return;
      }
      SameBus(before);
      if Has(memory[PORT1], 0x04) {
        return Goes;
      }
      var complete := Shift();
      if !complete {
        return Goes;
      }
      ending := ExchangeEepromByte();
      if ending.Goes? {
        ghost var b := Bus();
        RaiseStatus(true, true, false);
        PutBusTwice(before, b, Bus());
      }
    }

    method TransmitToEeprom() returns (ending: Ending)
      requires Valid()
      modifies this, memory, eepromMemory
      ensures Ended(ending, Value()) == Ssu.TransmitToEeprom(old(Value()))
      ensures ending.Goes? ==> memory[..] == PutBus(old(memory[..]), Bus())
    {
      hide PutBus, Ssu.TransmitEepromByte;
      ghost var before := memory[..];
      SameBus(before);
      if Has(memory[PORT1], 0x04) {
        return Goes;
      }
      var complete := Shift();
      if !complete {
        return Goes;
      }
      ending := TransmitEepromByte();
      if ending.Goes? {
        ghost var b := Bus();
        RaiseStatus(false, true, false);
        PutBusTwice(before, b, Bus());
      }
    }

    method TransmitToLcd()
      requires Valid()
      modifies this, memory, lcdMemory
      ensures Ssu.TransmitToLcd(old(Value())) == Ssu.Ran(Value())
      ensures memory[..] == PutBus(old(memory[..]), Bus())
    {
      SameBus(memory[..]);
      if Has(memory[PORT1], 0x02) {
        var complete := Shift();
        if complete {
          LcdData();
        }
      } else if !Has(memory[PORT1], 0x01) {
        LcdCommand();
        RaiseStatus(false, true, true);
      }
    }

    method Transmit() returns (ending: Ending)
      requires Valid()
      modifies this, memory, eepromMemory, accelMemory, lcdMemory
      ensures Ended(ending, Value()) == Ssu.Transmit(old(Value()))
      ensures ending.Goes? ==> memory[..] == PutBus(old(memory[..]), Bus())
    {
      hide PutBus, Ssu.WriteAccel, Ssu.TransmitToEeprom, Ssu.TransmitToLcd;
      ghost var before, d0 := memory[..], Value();
      SameBus(before);
      ending := Goes;
      if !Has(memory[PORT9], 0x01) {
        ending := WriteAccel();
        if !ending.Goes? {
          return;
        }
      }
      ghost var d1 := Value();
      ending := TransmitToEeprom();
      if !ending.Goes? {
        return;
      }
      ghost var d2 := Value();
      ToEepromRaises(d1);
      PutBusTwice(before, d1.bus, d2.bus);
      TransmitToLcd();
      ToLcdRaises(d2);
      PutBusTwice(before, d2.bus, Bus());
    }

    /** What the emulator does behind every instruction. */
    method ForgetDeselected()
      requires Valid()
      modifies this`gettingBytes, this`accelOffset, this`phase, this`offset
      ensures Valid() && PeripheralsValue() == CleanUp(old(PeripheralsValue()), Bus())
    {
      if Has(memory[PORT9], 0x01) {
        gettingBytes := false;
        accelOffset := 0;
      }
      if Has(memory[PORT1], 0x04) {
        phase := Ssu.Empty;
        offset := 0;
      }
    }

    /** What the emulator does on every fourth cycle. */
    method Tick() returns (ending: Ending)
      requires Valid()
      modifies this, memory, eepromMemory, accelMemory, lcdMemory
      ensures Ended(ending, Value()) == Ssu.Tick(old(Value()))
      ensures ending.Goes? ==> memory[..] == PutBus(old(memory[..]), Bus())
    {
      ghost var before := memory[..];
      SameBus(before);
      var te, re := Has(memory[SSER], 0x80), Has(memory[SSER], 0x40);
      if !te {
        RaiseStatus(false, true, false);
        return if re then GivesUp else Goes;
      }
      if Has(memory[SSSR], 0x04) {
        return Goes;
      }
      if re {
        ending := Exchange();
      } else {
        ending := Transmit();
      }
    }

    /** The color of one pixel of the displayed buffer. */
    method Pixel(x: nat, y: nat) returns (color: int)
      requires lcdMemory.Length == Ssu.LCD_SIZE && x < Ssu.LCD_WIDTH && y < Ssu.LCD_HEIGHT
      ensures color == LcdProtocol.Frame(LcdValue())[y * Ssu.LCD_WIDTH + x]
    {
      LcdProtocol.RowAndColumn(x, y);
      var at := LcdProtocol.PixelIndex(secondBuffer, x, y);
      var first := LcdProtocol.Bit(lcdMemory[at], y % 8);
      var second := LcdProtocol.Bit(lcdMemory[at + 1], y % 8);
      color := LcdProtocol.PALETTE[2 * first + second];
    }

    /** Reads the displayed picture out, pixel by pixel, and flips the buffers. */
    method FillVideoBuffer(video: array<int>)
      requires lcdMemory.Length == Ssu.LCD_SIZE && video.Length == Ssu.LCD_WIDTH * Ssu.LCD_HEIGHT
      modifies video, this`secondBuffer
      ensures video[..] == LcdProtocol.Frame(old(LcdValue()))
      ensures LcdValue() == LcdProtocol.Flip(old(LcdValue())) == old(LcdValue()).(secondBuffer := !old(secondBuffer))
    {
      hide LcdProtocol.Frame;
      ghost var frame := LcdProtocol.Frame(LcdValue());
      for y := 0 to Ssu.LCD_HEIGHT
        invariant forall i :: 0 <= i < y * Ssu.LCD_WIDTH ==> video[i] == frame[i]
        invariant LcdValue() == old(LcdValue())
      {
        for x := 0 to Ssu.LCD_WIDTH
          invariant forall i :: 0 <= i < y * Ssu.LCD_WIDTH + x ==> video[i] == frame[i]
          invariant LcdValue() == old(LcdValue())
        {
          var color := Pixel(x, y);
          video[y * Ssu.LCD_WIDTH + x] := color;
        }
      }
      secondBuffer := !secondBuffer;
      assert video[..] == frame;
    }
  }

  /** Putting back what is there changes nothing. */
  lemma SameBus(mem: seq<u8>)
    requires |mem| == MEM_SIZE
    ensures PutBus(mem, BusOf(mem)) == mem
  {
    StatusByteSum(mem[SSSR], BusOf(mem));
  }
}

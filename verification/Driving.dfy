/**
 What a program does to the serial unit, in order: it stores bytes, moves the select pins, and lets the unit tick.
 Transactions are such orders, and instructions in between that leave the unit alone do not show.
 */
module Driving {
  import opened Words
  import opened Ssu
  import EepromProtocol
  import LcdProtocol

  /** What the program sets: the two enable bits and the port bits. */
  datatype Pins = Pins(te: bool, re: bool, eepromPin: bool, lcdDataPin: bool, lcdPin: bool, accelPin: bool)

  datatype Feed = Beat | Put(byte: u8) | Point(pins: Pins)

  /** The bus after the instruction of a feed. */
  function FedBus(b: Bus, f: Feed): Bus {
    match f
    case Beat => b
    case Put(byte) => b.(sstdr := byte, tdre := false, tend := false)
    case Point(p) => b.(te := p.te, re := p.re, eepromPin := p.eepromPin, lcdDataPin := p.lcdDataPin,
                        lcdPin := p.lcdPin, accelPin := p.accelPin)
  }

  /** A tick, or an instruction with the cleanup behind it. */
  function Fed(d: Devices, f: Feed): (r: Outcome<Devices>)
    requires Ok(d)
    ensures r.Ran? ==> Ok(r.value)
  {
    if f.Beat? then Tick(d) else Ran(Cleanup(d.(bus := FedBus(d.bus, f))))
  }

  function Drive(d: Devices, feeds: seq<Feed>): (r: Outcome<Devices>)
    requires Ok(d)
    ensures r.Ran? ==> Ok(r.value)
  {
    if feeds == [] then Ran(d)
    else
      var before := Drive(d, feeds[..|feeds| - 1]);
      if before.Ran? then Fed(before.value, feeds[|feeds| - 1]) else before
  }

  lemma {:induction false} DriveOn(d: Devices, first: seq<Feed>, second: seq<Feed>)
    requires Ok(d)
    ensures Drive(d, first + second)
         == if Drive(d, first).Ran? then Drive(Drive(d, first).value, second) else Drive(d, first)
  {
    hide Fed, Ok;
    if second == [] {
      assert first + second == first;
      DriveNothing(if Drive(d, first).Ran? then Drive(d, first).value else d);
    } else {
      var last := |second| - 1;
      DriveOn(d, first, second[..last]);
      assert (first + second)[..|first| + last] == first + second[..last];
    }
  }

  lemma DriveNothing(d: Devices)
    requires Ok(d)
    ensures Drive(d, []) == Ran(d)
  {
  }

  lemma DriveOne(d: Devices, f: Feed)
    requires Ok(d)
    ensures Drive(d, [f]) == Fed(d, f)
  {
    assert Drive(d, []) == Ran(d);
    assert [f][..0] == [];
  }

  // ---------------------------------------------------------------- clean devices

  /** No deselected device is in a transaction, so the cleanup behind an instruction changes nothing. */
  predicate Clean(d: Devices) { Cleanup(d) == d }

  lemma CleanupIsClean(d: Devices)
    ensures Clean(Cleanup(d))
  {
  }

  predicate SamePins(b: Bus, c: Bus) {
    && b.te == c.te && b.re == c.re && b.accelPin == c.accelPin
    && b.eepromPin == c.eepromPin && b.lcdDataPin == c.lcdDataPin && b.lcdPin == c.lcdPin
  }

  /** What a device that is not selected keeps. */
  predicate KeepsDeselected(d: Devices, t: Devices) {
    && SamePins(d.bus, t.bus)
    && (d.bus.accelPin ==> t.accel == d.accel)
    && (d.bus.eepromPin ==> t.eeprom == d.eeprom)
  }

  lemma ReadAccelKeepsDeselected(d: Devices)
    requires Ok(d) && !d.bus.accelPin && ReadAccel(d).Ran?
    ensures KeepsDeselected(d, ReadAccel(d).value)
  {
    hide Ok;
  }

  lemma ExchangeKeepsDeselected(d: Devices)
    requires Ok(d) && Exchange(d).Ran?
    ensures KeepsDeselected(d, Exchange(d).value)
  {
    hide ReadAccel, ExchangeEepromByte;
    if !d.bus.accelPin {
      ReadAccelKeepsDeselected(d);
    } else if !d.bus.eepromPin && ByteComplete(d) {
      EepromProtocol.ExchangeByteEffects(Shift(d));
    }
  }

  lemma AccelKeepsDeselected(d: Devices)
    requires Ok(d) && !d.bus.accelPin && WriteAccel(d).Ran?
    ensures KeepsDeselected(d, WriteAccel(d).value) && WriteAccel(d).value.eeprom == d.eeprom
  {
    hide Ok;
  }

  lemma EepromKeepsDeselected(d: Devices)
    requires Ok(d) && TransmitToEeprom(d).Ran?
    ensures KeepsDeselected(d, TransmitToEeprom(d).value) && TransmitToEeprom(d).value.accel == d.accel
  {
    if !d.bus.eepromPin && ByteComplete(d) {
      EepromProtocol.TransmitByteEffects(Shift(d));
    }
  }

  lemma LcdKeepsDeselected(d: Devices)
    requires Ok(d)
    ensures var t := TransmitToLcd(d).value;
            SamePins(d.bus, t.bus) && t.eeprom == d.eeprom && t.accel == d.accel
  {
  }

  lemma TransmitKeepsDeselected(d: Devices)
    requires Ok(d) && Transmit(d).Ran?
    ensures KeepsDeselected(d, Transmit(d).value)
  {
    if !d.bus.accelPin {
      AccelKeepsDeselected(d);
    }
    var d1 := if d.bus.accelPin then d else WriteAccel(d).value;
    EepromKeepsDeselected(d1);
    LcdKeepsDeselected(TransmitToEeprom(d1).value);
  }

  lemma TickKeepsDeselected(d: Devices)
    requires Ok(d) && Tick(d).Ran?
    ensures KeepsDeselected(d, Tick(d).value)
  {
    var d0 := if d.bus.te then d else SetTdre(d);
    if d0.bus.te && !d0.bus.tdre {
      if d0.bus.re {
        ExchangeKeepsDeselected(d0);
      } else {
        TransmitKeepsDeselected(d0);
      }
    }
  }

  lemma TickIsClean(d: Devices)
    requires Ok(d) && Clean(d) && Tick(d).Ran?
    ensures Clean(Tick(d).value)
  {
    TickKeepsDeselected(d);
    CleanMeans(d);
    CleanMeans(Tick(d).value);
  }

  lemma CleanMeans(d: Devices)
    ensures Clean(d) <==> && (d.bus.accelPin ==> !d.accel.gettingBytes && d.accel.offset == 0)
                          && (d.bus.eepromPin ==> d.eeprom.phase == Empty && d.eeprom.offset == 0)
  {
  }

  lemma FedIsClean(d: Devices, f: Feed)
    requires Ok(d) && Clean(d) && Fed(d, f).Ran?
    ensures Clean(Fed(d, f).value)
  {
    if f.Beat? {
      TickIsClean(d);
    } else {
      CleanupIsClean(d.(bus := FedBus(d.bus, f)));
    }
  }

  lemma {:induction false} DrivenIsClean(d: Devices, feeds: seq<Feed>)
    requires Ok(d) && Clean(d) && Drive(d, feeds).Ran?
    ensures Clean(Drive(d, feeds).value)
  {
    if feeds != [] {
      var before := Drive(d, feeds[..|feeds| - 1]);
      DrivenIsClean(d, feeds[..|feeds| - 1]);
      FedIsClean(before.value, feeds[|feeds| - 1]);
    }
  }

  // ---------------------------------------------------------------- what a tick stores

  /** The next tick ends a data byte of a WRITE. */
  predicate ProgramsByte(d: Devices) {
    && d.bus.te && !d.bus.re && !d.bus.tdre
    && !d.bus.eepromPin && d.eeprom.phase == Bytes && ByteComplete(d)
  }

  /** The next tick ends a data byte for the LCD; a selected EEPROM counts the bits too. */
  predicate PaintsByte(d: Devices)
    requires Ok(d)
  {
    && d.bus.te && !d.bus.re && !d.bus.tdre && d.bus.lcdDataPin
    && (if d.bus.eepromPin then d.progress else Shift(d).progress) + 1 == SHIFT
  }

  lemma ExchangeStoresNothing(d: Devices)
    requires Ok(d) && Exchange(d).Ran?
    ensures Exchange(d).value.eeprom.memory == d.eeprom.memory && Exchange(d).value.lcd == d.lcd
  {
    hide Ok;
    if d.bus.accelPin && !d.bus.eepromPin && ByteComplete(d) {
      match d.eeprom.phase {
        case Empty =>
        case StatusRegister =>
        case AddressHigh =>
        case AddressLow =>
        case Bytes =>
      }
    }
  }

  lemma AccelStoresNothing(d: Devices)
    requires Ok(d) && WriteAccel(d).Ran?
    ensures var t := WriteAccel(d).value;
            && t.eeprom == d.eeprom && t.lcd == d.lcd && t.progress == d.progress
            && SamePins(d.bus, t.bus) && t.bus.sstdr == d.bus.sstdr
  {
    hide Ok;
  }

  lemma ByteIsProgrammed(d: Devices)
    requires Ok(d) && TransmitEepromByte(d).Ran?
    ensures var e, t := d.eeprom, TransmitEepromByte(d).value;
            if e.phase == Bytes
            then EepromIndex(e) < EEPROM_SIZE && t.eeprom.memory == e.memory[EepromIndex(e) := d.bus.sstdr]
            else t.eeprom.memory == e.memory
  {
    hide Raise;
    match d.eeprom.phase
    case Empty =>
    case StatusRegister =>
    case AddressHigh =>
    case AddressLow =>
    case Bytes =>
  }

  lemma ToEepromStores(d: Devices)
    requires Ok(d) && TransmitToEeprom(d).Ran?
    ensures var e, t := d.eeprom, TransmitToEeprom(d).value;
            && (if !d.bus.eepromPin && e.phase == Bytes && ByteComplete(d)
                then EepromIndex(e) < EEPROM_SIZE && t.eeprom.memory == e.memory[EepromIndex(e) := d.bus.sstdr]
                else t.eeprom.memory == e.memory)
            && t.lcd == d.lcd && SamePins(d.bus, t.bus) && t.bus.sstdr == d.bus.sstdr
            && t.progress == if d.bus.eepromPin then d.progress else Shift(d).progress
  {
    hide TransmitEepromByte;
    if !d.bus.eepromPin && ByteComplete(d) {
      ByteIsProgrammed(Shift(d));
      EepromProtocol.TransmitByteEffects(Shift(d));
    }
  }

  lemma ToLcdStores(d: Devices)
    requires Ok(d)
    ensures var t := TransmitToLcd(d).value;
            && t.eeprom == d.eeprom
            && (if d.bus.lcdDataPin && ByteComplete(d)
                then LcdIndex(d.lcd) < LCD_SIZE && t.lcd.memory == d.lcd.memory[LcdIndex(d.lcd) := d.bus.sstdr]
                else t.lcd.memory == d.lcd.memory)
  {
  }

  lemma TransmitStores(d: Devices)
    requires Ok(d) && Transmit(d).Ran? && d.bus.te && !d.bus.re && !d.bus.tdre
    ensures StoresOnly(d, Transmit(d).value)
  {
    hide WriteAccel, TransmitToEeprom, TransmitToLcd;
    if !d.bus.accelPin {
      AccelStoresNothing(d);
    }
    var d1 := if d.bus.accelPin then d else WriteAccel(d).value;
    ToEepromStores(d1);
    ToLcdStores(TransmitToEeprom(d1).value);
  }

  /** What a tick that leads from `d` to `t` stores in the EEPROM and in the LCD, and where. */
  predicate StoresOnly(d: Devices, t: Devices)
    requires Ok(d)
  {
    && (if ProgramsByte(d)
        then EepromIndex(d.eeprom) < EEPROM_SIZE
             && t.eeprom.memory == d.eeprom.memory[EepromIndex(d.eeprom) := d.bus.sstdr]
        else t.eeprom.memory == d.eeprom.memory)
    && (if PaintsByte(d)
        then LcdIndex(d.lcd) < LCD_SIZE && t.lcd.memory == d.lcd.memory[LcdIndex(d.lcd) := d.bus.sstdr]
        else t.lcd.memory == d.lcd.memory)
  }

  lemma TickStores(d: Devices)
    requires Ok(d) && Tick(d).Ran?
    ensures StoresOnly(d, Tick(d).value)
  {
    hide Transmit, Exchange;
    var d0 := if d.bus.te then d else SetTdre(d);
    if d0.bus.te && !d0.bus.tdre {
      if d0.bus.re {
        ExchangeStoresNothing(d0);
      } else {
        TransmitStores(d0);
      }
    }
  }

  // ---------------------------------------------------------------- what ticks do not look at

  /** Without the receive flag, which the program clears by reading, and the buffer that the display shows. */
  function Erased(d: Devices): Devices {
    d.(bus := d.bus.(rdrf := false), lcd := d.lcd.(secondBuffer := false))
  }

  predicate Same(d: Devices, e: Devices) { Erased(d) == Erased(e) }

  predicate SameOutcome(r: Outcome<Devices>, s: Outcome<Devices>) {
    if r.Ran? then s.Ran? && Same(r.value, s.value) else s == r
  }

  /** `d` with another receive flag and another displayed buffer. */
  function Redone(d: Devices, rdrf: bool, second: bool): Devices {
    d.(bus := d.bus.(rdrf := rdrf), lcd := d.lcd.(secondBuffer := second))
  }

  lemma SameIsRedone(d: Devices, e: Devices)
    requires Same(d, e)
    ensures e == Redone(d, e.bus.rdrf, e.lcd.secondBuffer)
  {
    assert Erased(d).bus == Erased(e).bus && Erased(d).lcd == Erased(e).lcd;
  }

  function RedoneOutcome(o: Outcome<Devices>, rdrf: bool, second: bool): Outcome<Devices> {
    if o.Ran? then Ran(Redone(o.value, rdrf, second)) else o
  }

  lemma RedoneIsSame(o: Outcome<Devices>, rdrf: bool, second: bool)
    ensures SameOutcome(o, RedoneOutcome(o, rdrf, second))
  {
  }

  lemma RedoneIsOk(d: Devices, rdrf: bool, second: bool)
    requires Ok(d)
    ensures Ok(Redone(d, rdrf, second))
  {
  }

  /** What a complete byte can change. */
  function WithByte(d: Devices, ssrdr: u8, tend: bool, e: Eeprom): Devices {
    d.(bus := d.bus.(ssrdr := ssrdr, tend := tend), eeprom := e)
  }

  lemma WithByteRespects(d: Devices, ssrdr: u8, tend: bool, e: Eeprom, rdrf: bool, second: bool)
    ensures WithByte(Redone(d, rdrf, second), ssrdr, tend, e) == Redone(WithByte(d, ssrdr, tend, e), rdrf, second)
  {
  }

  lemma ExchangeByteParts(d: Devices)
    requires Ok(d) && ExchangeEepromByte(d).Ran?
    ensures var t := ExchangeEepromByte(d).value; t == WithByte(d, t.bus.ssrdr, t.bus.tend, t.eeprom)
  {
    match d.eeprom.phase
    case Empty =>
    case StatusRegister =>
    case AddressHigh =>
    case AddressLow =>
    case Bytes =>
  }

  /** It does not depend on the receive flag or on the displayed buffer. */
  lemma ExchangeByteEnds(d: Devices, e: Devices)
    requires Ok(d) && Ok(e) && e.eeprom == d.eeprom && e.bus.sstdr == d.bus.sstdr
    ensures ExchangeEepromByte(d).Ran? <==> ExchangeEepromByte(e).Ran?
    ensures !ExchangeEepromByte(d).Ran? ==> ExchangeEepromByte(e) == ExchangeEepromByte(d)
  {
    hide EepromIndex, Raise, Ok;
    match d.eeprom.phase
    case Empty =>
    case StatusRegister =>
    case AddressHigh =>
    case AddressLow =>
    case Bytes =>
  }

  lemma ExchangeByteStores(d: Devices, e: Devices)
    requires Ok(d) && Ok(e) && e.eeprom == d.eeprom && e.bus.sstdr == d.bus.sstdr
    requires ExchangeEepromByte(d).Ran? && ExchangeEepromByte(e).Ran?
    ensures ExchangeEepromByte(e).value.eeprom == ExchangeEepromByte(d).value.eeprom
  {
    hide EepromIndex, Raise, Ok;
    match d.eeprom.phase
    case Empty =>
    case StatusRegister =>
    case AddressHigh =>
    case AddressLow =>
    case Bytes =>
  }

  lemma ExchangeByteShows(d: Devices)
    requires Ok(d) && ExchangeEepromByte(d).Ran?
    ensures var t := ExchangeEepromByte(d).value;
            && (d.eeprom.phase.Bytes? ==> EepromIndex(d.eeprom) < EEPROM_SIZE)
            && t.bus.ssrdr == if d.eeprom.phase.StatusRegister? then d.eeprom.status
                           else if d.eeprom.phase.Bytes? then d.eeprom.memory[EepromIndex(d.eeprom)]
                           else d.bus.ssrdr
  {
    match d.eeprom.phase
    case Empty =>
    case StatusRegister =>
    case AddressHigh =>
    case AddressLow =>
    case Bytes =>
  }

  lemma ExchangeByteFlags(d: Devices)
    requires Ok(d) && ExchangeEepromByte(d).Ran?
    ensures var t := ExchangeEepromByte(d).value;
            t.bus.tend == (d.bus.tend || d.eeprom.phase.StatusRegister? || d.eeprom.phase.Bytes?)
  {
    match d.eeprom.phase
    case Empty =>
    case StatusRegister =>
    case AddressHigh =>
    case AddressLow =>
    case Bytes =>
  }

  lemma ExchangeByteRespects(d: Devices, rdrf: bool, second: bool)
    requires Ok(d) && Ok(Redone(d, rdrf, second))
    ensures ExchangeEepromByte(Redone(d, rdrf, second)) == RedoneOutcome(ExchangeEepromByte(d), rdrf, second)
  {
    hide ExchangeEepromByte;
    var e, r := Redone(d, rdrf, second), ExchangeEepromByte(d);
    ExchangeByteEnds(d, e);
    if r.Ran? {
      ExchangeByteStores(d, e);
      ExchangeByteShows(d);
      ExchangeByteShows(e);
      ExchangeByteFlags(d);
      ExchangeByteFlags(e);
      ExchangeByteParts(d);
      ExchangeByteParts(e);
      WithByteRespects(d, r.value.bus.ssrdr, r.value.bus.tend, r.value.eeprom, rdrf, second);
    }
  }

  lemma TransmitByteParts(d: Devices)
    requires Ok(d) && TransmitEepromByte(d).Ran?
    ensures var t := TransmitEepromByte(d).value; t == WithByte(d, t.bus.ssrdr, t.bus.tend, t.eeprom)
  {
    match d.eeprom.phase
    case Empty =>
    case StatusRegister =>
    case AddressHigh =>
    case AddressLow =>
    case Bytes =>
  }

  /** It does not depend on the receive flag or on the displayed buffer. */
  lemma TransmitByteEnds(d: Devices, e: Devices)
    requires Ok(d) && Ok(e) && e.eeprom == d.eeprom && e.bus.sstdr == d.bus.sstdr
    ensures TransmitEepromByte(d).Ran? <==> TransmitEepromByte(e).Ran?
    ensures !TransmitEepromByte(d).Ran? ==> TransmitEepromByte(e) == TransmitEepromByte(d)
  {
    hide EepromIndex, Raise, Ok;
    match d.eeprom.phase
    case Empty =>
    case StatusRegister =>
    case AddressHigh =>
    case AddressLow =>
    case Bytes =>
  }

  lemma TransmitByteStores(d: Devices, e: Devices)
    requires Ok(d) && Ok(e) && e.eeprom == d.eeprom && e.bus.sstdr == d.bus.sstdr
    requires TransmitEepromByte(d).Ran? && TransmitEepromByte(e).Ran?
    ensures TransmitEepromByte(e).value.eeprom == TransmitEepromByte(d).value.eeprom
  {
    hide EepromIndex, Raise, Ok;
    match d.eeprom.phase
    case Empty =>
    case StatusRegister =>
    case AddressHigh =>
    case AddressLow =>
    case Bytes =>
  }

  lemma TransmitByteShows(d: Devices)
    requires Ok(d) && TransmitEepromByte(d).Ran?
    ensures var t := TransmitEepromByte(d).value;
            && t.bus.ssrdr == d.bus.ssrdr
  {
    match d.eeprom.phase
    case Empty =>
    case StatusRegister =>
    case AddressHigh =>
    case AddressLow =>
    case Bytes =>
  }

  lemma TransmitByteFlags(d: Devices)
    requires Ok(d) && TransmitEepromByte(d).Ran?
    ensures var t := TransmitEepromByte(d).value;
            t.bus.tend == (d.bus.tend || d.eeprom.phase.Bytes? || (d.eeprom.phase.Empty? && d.bus.sstdr == 0x6))
  {
    match d.eeprom.phase
    case Empty =>
    case StatusRegister =>
    case AddressHigh =>
    case AddressLow =>
    case Bytes =>
  }

  lemma TransmitByteRespects(d: Devices, rdrf: bool, second: bool)
    requires Ok(d) && Ok(Redone(d, rdrf, second))
    ensures TransmitEepromByte(Redone(d, rdrf, second)) == RedoneOutcome(TransmitEepromByte(d), rdrf, second)
  {
    hide TransmitEepromByte;
    var e, r := Redone(d, rdrf, second), TransmitEepromByte(d);
    TransmitByteEnds(d, e);
    if r.Ran? {
      TransmitByteStores(d, e);
      TransmitByteShows(d);
      TransmitByteShows(e);
      TransmitByteFlags(d);
      TransmitByteFlags(e);
      TransmitByteParts(d);
      TransmitByteParts(e);
      WithByteRespects(d, r.value.bus.ssrdr, r.value.bus.tend, r.value.eeprom, rdrf, second);
    }
  }

  /** The accelerometer sets the receive flag whatever it was. */
  lemma AccelRespects(d: Devices, rdrf: bool, second: bool)
    requires Ok(d) && Ok(Redone(d, rdrf, second))
    ensures ReadAccel(Redone(d, rdrf, second)) == RedoneOutcome(ReadAccel(d), true, second)
    ensures WriteAccel(Redone(d, rdrf, second)) == RedoneOutcome(WriteAccel(d), true, second)
  {
  }

  lemma ToEepromRespects(d: Devices, rdrf: bool, second: bool)
    requires Ok(d) && Ok(Redone(d, rdrf, second))
    ensures TransmitToEeprom(Redone(d, rdrf, second)) == RedoneOutcome(TransmitToEeprom(d), rdrf, second)
  {
    if !d.bus.eepromPin && ByteComplete(d) {
      TransmitByteRespects(Shift(d), rdrf, second);
      assert Shift(Redone(d, rdrf, second)) == Redone(Shift(d), rdrf, second);
    }
  }

  lemma ToLcdRespects(d: Devices, rdrf: bool, second: bool)
    requires Ok(d) && Ok(Redone(d, rdrf, second))
    ensures TransmitToLcd(Redone(d, rdrf, second)) == RedoneOutcome(TransmitToLcd(d), rdrf, second)
  {
    var e := Redone(d, rdrf, second);
    assert e.lcd == d.lcd.(secondBuffer := second) && e.bus == d.bus.(rdrf := rdrf);
    if d.bus.lcdDataPin && ByteComplete(d) {
      PaintRespects(Shift(d), rdrf, second);
      assert Shift(e) == Redone(Shift(d), rdrf, second);
    } else if !d.bus.lcdDataPin && !d.bus.lcdPin {
      CommandRespects(d.lcd, d.bus.sstdr, second);
    }
  }

  lemma PaintRespects(d: Devices, rdrf: bool, second: bool)
    requires Ok(d) && Ok(Redone(d, rdrf, second))
    ensures LcdData(Redone(d, rdrf, second)) == RedoneOutcome(LcdData(d), rdrf, second)
  {
    assert LcdIndex(Redone(d, rdrf, second).lcd) == LcdIndex(d.lcd);
  }

  lemma CommandRespects(l: Lcd, command: u8, second: bool)
    ensures LcdCommand(l.(secondBuffer := second), command) == LcdCommand(l, command).(secondBuffer := second)
  {
  }

  lemma ExchangeRespects(d: Devices, rdrf: bool, second: bool) returns (after: bool)
    requires Ok(d) && Ok(Redone(d, rdrf, second))
    ensures Exchange(Redone(d, rdrf, second)) == RedoneOutcome(Exchange(d), after, second)
  {
    after := rdrf;
    if !d.bus.accelPin {
      AccelRespects(d, rdrf, second);
      after := true;
    } else if !d.bus.eepromPin && ByteComplete(d) {
      ExchangeByteRespects(Shift(d), rdrf, second);
      assert Shift(Redone(d, rdrf, second)) == Redone(Shift(d), rdrf, second);
      after := true;
    }
  }

  lemma TransmitRespects(d: Devices, rdrf: bool, second: bool) returns (after: bool)
    requires Ok(d) && Ok(Redone(d, rdrf, second))
    ensures Transmit(Redone(d, rdrf, second)) == RedoneOutcome(Transmit(d), after, second)
  {
    after := d.bus.accelPin ==> rdrf;
    var d1 := if d.bus.accelPin then Ran(d) else WriteAccel(d);
    if !d.bus.accelPin {
      AccelRespects(d, rdrf, second);
    }
    if d1.Ran? {
      RedoneIsOk(d1.value, after, second);
      ToEepromRespects(d1.value, after, second);
      var d2 := TransmitToEeprom(d1.value);
      if d2.Ran? {
        RedoneIsOk(d2.value, after, second);
        ToLcdRespects(d2.value, after, second);
      }
    }
  }

  lemma TickRespects(d: Devices, e: Devices)
    requires Ok(d) && Ok(e) && Same(d, e)
    ensures SameOutcome(Tick(d), Tick(e))
  {
    SameIsRedone(d, e);
    var rdrf, second := e.bus.rdrf, e.lcd.secondBuffer;
    var d0 := if d.bus.te then d else SetTdre(d);
    var after := rdrf;
    RedoneIsOk(d0, rdrf, second);
    if d0.bus.te && !d0.bus.tdre {
      if d0.bus.re {
        after := ExchangeRespects(d0, rdrf, second);
      } else {
        after := TransmitRespects(d0, rdrf, second);
      }
    }
    assert Tick(e) == RedoneOutcome(Tick(d), after, second);
    RedoneIsSame(Tick(d), after, second);
  }

  lemma StoringRespects(d: Devices, e: Devices, f: Feed)
    requires Same(d, e) && !f.Beat?
    ensures Same(Cleanup(d.(bus := FedBus(d.bus, f))), Cleanup(e.(bus := FedBus(e.bus, f))))
  {
    SameIsRedone(d, e);
    match f
    case Put(_) =>
    case Point(_) =>
  }

  lemma FedRespects(d: Devices, e: Devices, f: Feed)
    requires Ok(d) && Ok(e) && Same(d, e)
    ensures SameOutcome(Fed(d, f), Fed(e, f))
  {
    if f.Beat? {
      TickRespects(d, e);
    } else {
      StoringRespects(d, e, f);
    }
  }

  lemma {:induction false} DriveRespects(d: Devices, e: Devices, feeds: seq<Feed>)
    requires Ok(d) && Ok(e) && Same(d, e)
    ensures SameOutcome(Drive(d, feeds), Drive(e, feeds))
  {
    if feeds != [] {
      var front := feeds[..|feeds| - 1];
      DriveRespects(d, e, front);
      if Drive(d, front).Ran? {
        FedRespects(Drive(d, front).value, Drive(e, front).value, feeds[|feeds| - 1]);
      }
    }
  }

  /** The feeds bring a device to another, but for what ticks do not look at. */
  predicate Brings(d: Devices, feeds: seq<Feed>, e: Devices) {
    Ok(d) && Ok(e) && Drive(d, feeds).Ran? && Same(Drive(d, feeds).value, e)
  }

  lemma BringsOn(d: Devices, first: seq<Feed>, e: Devices, second: seq<Feed>, f: Devices)
    requires Brings(d, first, e) && Brings(e, second, f)
    ensures Brings(d, first + second, f)
  {
    DriveOn(d, first, second);
    DriveRespects(Drive(d, first).value, e, second);
  }

  lemma BringsNowhere(d: Devices, e: Devices)
    requires Ok(d) && Ok(e) && Same(d, e)
    ensures Brings(d, [], e)
  {
    DriveNothing(d);
  }

  // ---------------------------------------------------------------- transactions as feeds

  function Beats(n: nat): (r: seq<Feed>)
    ensures |r| == n
  {
    seq(n, _ => Beat)
  }

  /** A byte is stored and the unit ticks. */
  function ByteFeeds(byte: u8, ticks: nat): seq<Feed> { [Put(byte)] + Beats(ticks) }

  function DataFeeds(data: seq<Datum>): seq<Feed> {
    if data == [] then []
    else
      var last := |data| - 1;
      DataFeeds(data[..last]) + ByteFeeds(data[last].byte, 7 + data[last].gap)
  }

  lemma {:induction false} DriveBeats(d: Devices, n: nat)
    requires Ok(d)
    ensures Drive(d, Beats(n)) == Ticks(d, n)
  {
    if n > 0 {
      DriveBeats(d, n - 1);
      assert Beats(n)[..n - 1] == Beats(n - 1);
    }
  }

  lemma DriveByte(d: Devices, byte: u8, ticks: nat)
    requires Ok(d) && Clean(d)
    ensures Drive(d, ByteFeeds(byte, ticks)) == Ticks(Load(d, byte), ticks)
  {
    DriveOn(d, [Put(byte)], Beats(ticks));
    DriveOne(d, Put(byte));
    CleanMeans(d);
    CleanMeans(Load(d, byte));
    assert d.(bus := FedBus(d.bus, Put(byte))) == Load(d, byte);
    DriveBeats(Load(d, byte), ticks);
  }

  lemma {:induction false} DriveData(d: Devices, data: seq<Datum>)
    requires Ok(d) && Clean(d)
    ensures Drive(d, DataFeeds(data)) == SendAll(d, data)
  {
    hide Tick, Clean, Ticks, Fed, Drive, Load;
    if data == [] {
      DriveNothing(d);
    } else {
      var last := |data| - 1;
      var sent := ByteFeeds(data[last].byte, 7 + data[last].gap);
      DriveData(d, data[..last]);
      DriveOn(d, DataFeeds(data[..last]), sent);
      if Drive(d, DataFeeds(data[..last])).Ran? {
        DrivenIsClean(d, DataFeeds(data[..last]));
        DriveByte(Drive(d, DataFeeds(data[..last])).value, data[last].byte, 7 + data[last].gap);
      }
    }
  }

  function HeaderData(h: EepromProtocol.Header): seq<Datum> { [h.command, h.high, h.low] }

  lemma BeginSendsHeader(d: Devices, h: EepromProtocol.Header)
    requires Ok(d)
    ensures SendAll(d, HeaderData(h)) == EepromProtocol.Begin(d, h)
  {
    var data := HeaderData(h);
    assert data[..0] == [] && data[..1] == [h.command] && data[..2] == [h.command, h.high];
    assert data[..2][..1] == data[..1] && data[..1][..0] == [];
    SendAllOne(d, data[..1]);
    SendAllOne(d, data[..2]);
    SendAllOne(d, data);
  }

  lemma SendAllOne(d: Devices, data: seq<Datum>)
    requires Ok(d) && data != []
    ensures var last, before := |data| - 1, SendAll(d, data[..|data| - 1]);
            SendAll(d, data) == if before.Ran? then Send(before.value, data[last].byte, data[last].gap) else before
  {
  }

  /** A transaction with the EEPROM: its header and its data. */
  function TransactionFeeds(h: EepromProtocol.Header, data: seq<Datum>): seq<Feed> {
    DataFeeds(HeaderData(h)) + DataFeeds(data)
  }

  lemma DriveTransaction(d: Devices, h: EepromProtocol.Header, data: seq<Datum>)
    requires Ok(d) && Clean(d)
    ensures Drive(d, TransactionFeeds(h, data))
         == if EepromProtocol.Begin(d, h).Ran? then SendAll(EepromProtocol.Begin(d, h).value, data)
            else EepromProtocol.Begin(d, h)
  {
    DriveOn(d, DataFeeds(HeaderData(h)), DataFeeds(data));
    DriveData(d, HeaderData(h));
    BeginSendsHeader(d, h);
    if EepromProtocol.Begin(d, h).Ran? {
      DrivenIsClean(d, DataFeeds(HeaderData(h)));
      DriveData(EepromProtocol.Begin(d, h).value, data);
    }
  }

  lemma {:induction false} ReceivingIsSending(d: Devices, pauses: seq<Datum>)
    requires Ok(d)
    ensures EepromProtocol.Receive(d, pauses).Ran? <==> SendAll(d, pauses).Ran?
    ensures SendAll(d, pauses).Ran? ==>
              var (t, got) := EepromProtocol.Receive(d, pauses).value;
              && t == SendAll(d, pauses).value && |got| == |pauses|
              && (pauses != [] ==> got[|got| - 1] == t.bus.ssrdr)
  {
    if pauses != [] {
      ReceivingIsSending(d, pauses[..|pauses| - 1]);
    }
  }

  // ---------------------------------------------------------------- drawing as feeds

  const LCD_DATA: Pins := Pins(true, false, true, true, false, true)
  const LCD_COMMANDS: Pins := LCD_DATA.(lcdDataPin := false)

  function SelectFeeds(page: u8, s: LcdProtocol.Stripe): seq<Feed>
    requires page < 16
  {
    ByteFeeds(0xB0 + page as int, s.paged + 1) + ByteFeeds(0x00, s.lowered + 1) + ByteFeeds(0x10, s.raised + 1)
  }

  function PageFeeds(page: u8, s: LcdProtocol.Stripe): seq<Feed>
    requires page < 16
  {
    SelectFeeds(page, s) + [Point(LCD_DATA)] + Beats(s.pinned) + DataFeeds(s.data)
    + [Point(LCD_COMMANDS)] + Beats(s.unpinned)
  }

  function PicturesFeeds(first: u8, stripes: seq<LcdProtocol.Stripe>): seq<Feed>
    requires first + |stripes| as int <= 16
  {
    if stripes == [] then []
    else
      var last := |stripes| - 1;
      PicturesFeeds(first, stripes[..last]) + PageFeeds(first + last as int, stripes[last])
  }

  lemma DriveCommand(d: Devices, before: seq<Feed>, t: Devices, command: u8, gap: nat)
    requires Ok(d) && Ok(t) && Clean(d) && Drive(d, before) == Ran(t)
    ensures Drive(d, before + ByteFeeds(command, gap + 1)) == LcdProtocol.SendCommand(t, command, gap)
  {
    DrivenIsClean(d, before);
    DriveOn(d, before, ByteFeeds(command, gap + 1));
    DriveByte(t, command, gap + 1);
  }

  lemma DriveSelect(d: Devices, page: u8, s: LcdProtocol.Stripe)
    requires Clean(d) && LcdProtocol.ReadyToDraw(d) && page < 16
    ensures Drive(d, SelectFeeds(page, s)) == LcdProtocol.SelectPage(d, page, s)
  {
    hide Drive, Tick, Ticks, LcdProtocol.SendCommand, Clean, ByteFeeds, LcdCommand;
    LcdProtocol.SelectPageObeyed(d, page, s);
    var c1 := ByteFeeds(0xB0 + page as int, s.paged + 1);
    var c2 := c1 + ByteFeeds(0x00, s.lowered + 1);
    assert [] + c1 == c1;
    DriveNothing(d);
    DriveCommand(d, [], d, 0xB0 + page as int, s.paged);
    var d1 := LcdProtocol.SendCommand(d, 0xB0 + page as int, s.paged).value;
    DriveCommand(d, c1, d1, 0x00, s.lowered);
    var d2 := LcdProtocol.SendCommand(d1, 0x00, s.lowered).value;
    DriveCommand(d, c2, d2, 0x10, s.raised);
  }

  lemma DrivePin(d: Devices, before: seq<Feed>, t: Devices, on: bool)
    requires Ok(d) && Ok(t) && Clean(d) && Drive(d, before) == Ran(t) && LcdProtocol.LcdOnly(t.bus)
    ensures Drive(d, before + [Point(if on then LCD_DATA else LCD_COMMANDS)]) == Ran(LcdProtocol.DataPin(t, on))
  {
    var f := Point(if on then LCD_DATA else LCD_COMMANDS);
    DrivenIsClean(d, before);
    DriveOn(d, before, [f]);
    DriveOne(t, f);
    CleanMeans(t);
    CleanMeans(LcdProtocol.DataPin(t, on));
    assert t.(bus := FedBus(t.bus, f)) == LcdProtocol.DataPin(t, on);
  }

  lemma DriveIdly(d: Devices, before: seq<Feed>, t: Devices, n: nat)
    requires Ok(d) && Ok(t) && Drive(d, before) == Ran(t) && t.bus.te && t.bus.tdre
    ensures Drive(d, before + Beats(n)) == Ran(t) && Ticks(t, n) == Ran(t)
  {
    DriveOn(d, before, Beats(n));
    DriveBeats(t, n);
    TicksIdle(t, n);
  }

  lemma DriveMoreData(d: Devices, before: seq<Feed>, t: Devices, data: seq<Datum>)
    requires Ok(d) && Ok(t) && Clean(d) && Drive(d, before) == Ran(t)
    ensures Drive(d, before + DataFeeds(data)) == SendAll(t, data)
  {
    DrivenIsClean(d, before);
    DriveOn(d, before, DataFeeds(data));
    DriveData(t, data);
  }

  lemma DrivePage(d: Devices, page: u8, s: LcdProtocol.Stripe)
    requires Clean(d) && LcdProtocol.ReadyToDraw(d) && page < 16
    ensures Drive(d, PageFeeds(page, s)) == LcdProtocol.DrawPage(d, page, s)
  {
    hide Drive, Tick, Ticks, Clean, SelectFeeds, DataFeeds, Beats, SendAll, LcdProtocol.SelectPage;
    LcdProtocol.SelectPageObeyed(d, page, s);
    DriveSelect(d, page, s);
    var d1 := LcdProtocol.SelectPage(d, page, s).value;
    DrivePin(d, SelectFeeds(page, s), d1, true);
    var d2 := LcdProtocol.DataPin(d1, true);
    var toData := SelectFeeds(page, s) + [Point(LCD_DATA)];
    DriveIdly(d, toData, d2, s.pinned);
    LcdProtocol.SendAllPaints(d2, s.data);
    var d3 := SendAll(d2, s.data).value;
    var behindData := toData + Beats(s.pinned) + DataFeeds(s.data);
    DriveMoreData(d, toData + Beats(s.pinned), d2, s.data);
    DrivePin(d, behindData, d3, false);
    DriveIdly(d, behindData + [Point(LCD_COMMANDS)], LcdProtocol.DataPin(d3, false), s.unpinned);
  }

  lemma {:induction false} DrivePages(d: Devices, first: u8, stripes: seq<LcdProtocol.Stripe>)
    requires Clean(d) && LcdProtocol.ReadyToDraw(d) && first + |stripes| as int <= 16
    requires forall q: nat :: q < |stripes| ==> |stripes[q].data| == LCD_STRIPE
    ensures Drive(d, PicturesFeeds(first, stripes)) == LcdProtocol.DrawPages(d, first, stripes)
  {
    if stripes != [] {
      var last := |stripes| - 1;
      DrivePages(d, first, stripes[..last]);
      LcdProtocol.DrawPagesHold(d, first, stripes[..last]);
      DrivenIsClean(d, PicturesFeeds(first, stripes[..last]));
      DriveOn(d, PicturesFeeds(first, stripes[..last]), PageFeeds(first + last as int, stripes[last]));
      DrivePage(LcdProtocol.DrawPages(d, first, stripes[..last]).value, first + last as int, stripes[last]);
    }
  }
}

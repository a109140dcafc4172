/**
 The synchronous serial unit and the three devices behind it. One `Tick` is what the emulator does on every
 fourth clock cycle. `Bus` is what a tick sees of memory: the data registers, and the bits it
 tests or sets in the enable, status and port registers.
 */
module Ssu {
  import opened Words

  const EEPROM_SIZE: int := 0x1_0000
  const EEPROM_PAGE: int := 128
  const ACCEL_SIZE: int := 29
  const LCD_SIZE: int := 5632 // 128 * 176 / 4
  const LCD_WIDTH: int := 96
  const LCD_HEIGHT: int := 64
  const LCD_STRIPE: int := 192 // two bytes for each of the 96 columns of a page

  /** Ticks that shift one byte: the emulator counts progress up to 7. */
  const SHIFT: nat := 7

  /** `GaveUp` is the emulator's `return 1`; the other two are an out-of-range access and a failed assertion. */
  datatype Outcome<+T> = Ran(value: T) | GaveUp | OutOfBounds | AssertFails {
    predicate IsFailure() { !Ran? }

    function PropagateFailure<U>(): Outcome<U>
      requires !Ran?
    {
      if GaveUp? then GaveUp else if OutOfBounds? then OutOfBounds else AssertFails
    }

    function Extract(): T
      requires Ran?
    {
      value
    }
  }

  datatype Bus = Bus(
    te: bool, re: bool,                  // SSER: transmission, reception enabled
    rdrf: bool, tdre: bool, tend: bool,  // SSSR: receive full, transmit empty, transmit end
    ssrdr: u8, sstdr: u8,                // received byte, byte to transmit
    eepromPin: bool, lcdDataPin: bool, lcdPin: bool, // port 1; the EEPROM and LCD selects are active low
    accelPin: bool)                      // port 9, active low

  datatype Phase = Empty | StatusRegister | AddressHigh | AddressLow | Bytes

  datatype Eeprom = Eeprom(memory: seq<u8>, status: u8, high: u8, low: u8, phase: Phase, offset: u16)

  datatype Accel = Accel(memory: seq<u8>, address: u8, offset: u8, gettingBytes: bool)

  datatype Lcd = Lcd(memory: seq<u8>, contrast: u8, readingContrast: bool,
                     column: u8, page: u8, byte: u8, secondBuffer: bool)

  datatype Devices = Devices(bus: Bus, progress: u8, eeprom: Eeprom, accel: Accel, lcd: Lcd)

  /** What holds in every reachable state. */
  predicate Ok(d: Devices) {
    && |d.eeprom.memory| == EEPROM_SIZE
    && |d.accel.memory| == ACCEL_SIZE
    && |d.lcd.memory| == LCD_SIZE
    && d.progress < SHIFT
    && d.lcd.page < 16
    && d.lcd.byte < 2
  }

  function SetTdre(d: Devices): Devices { d.(bus := d.bus.(tdre := true)) }

  // ---------------------------------------------------------------- accelerometer

  function ReadAccel(d: Devices): (r: Outcome<Devices>)
    requires Ok(d)
    ensures r.Ran? ==> Ok(r.value)
  {
    var a := d.accel;
    if !a.gettingBytes then
      Ran(d.(bus := d.bus.(rdrf := true),
             accel := a.(address := d.bus.sstdr % 0x10, offset := 0, gettingBytes := true)))
    else if a.address + a.offset as int >= ACCEL_SIZE then OutOfBounds
    else
      Ran(d.(bus := d.bus.(rdrf := true, tdre := true, tend := true, ssrdr := a.memory[a.address + a.offset as int]),
             accel := a.(offset := Low8(a.offset + 1))))
  }

  function WriteAccel(d: Devices): (r: Outcome<Devices>)
    requires Ok(d)
    ensures r.Ran? ==> Ok(r.value)
  {
    var a := d.accel;
    if !a.gettingBytes then
      Ran(d.(bus := d.bus.(rdrf := true), accel := a.(address := d.bus.sstdr, gettingBytes := true)))
    else if a.address >= ACCEL_SIZE then OutOfBounds
    else
      Ran(d.(bus := d.bus.(rdrf := true, tdre := true, tend := true),
             accel := a.(memory := a.memory[a.address := d.bus.sstdr])))
  }

  // ---------------------------------------------------------------- EEPROM

  function EepromIndex(e: Eeprom): nat { e.high as int * 0x100 + e.low as int + e.offset as int }

  /** A byte shifted while both directions are enabled: READ and RDSR. */
  function ExchangeEepromByte(d: Devices): (r: Outcome<Devices>)
    requires Ok(d)
    ensures r.Ran? ==> Ok(r.value)
  {
    var e, b := d.eeprom, d.bus;
    match e.phase
    case Empty =>
      Ran(if b.sstdr == 0x3 then d.(eeprom := e.(phase := AddressHigh))
          else if b.sstdr == 0x5 then d.(eeprom := e.(phase := StatusRegister))
          else d)
    case StatusRegister => Ran(d.(bus := b.(ssrdr := e.status, tend := true)))
    case AddressHigh => Ran(d.(eeprom := e.(high := b.sstdr, phase := AddressLow)))
    case AddressLow => Ran(d.(eeprom := e.(low := b.sstdr, phase := Bytes)))
    case Bytes =>
      if EepromIndex(e) >= EEPROM_SIZE then OutOfBounds
      else
        Ran(d.(bus := b.(ssrdr := e.memory[EepromIndex(e)], tend := true),
               eeprom := e.(offset := Low16(e.offset + 1))))
  }

  /** A byte shifted while only transmission is enabled: WREN and WRITE. */
  function TransmitEepromByte(d: Devices): (r: Outcome<Devices>)
    requires Ok(d)
    ensures r.Ran? ==> Ok(r.value)
  {
    var e, b := d.eeprom, d.bus;
    match e.phase
    case Empty =>
      Ran(if b.sstdr == 0x6 then d.(bus := b.(tend := true), eeprom := e.(status := Raise(e.status, 0x2)))
          else if b.sstdr == 0x2 then d.(eeprom := e.(phase := AddressHigh))
          else d)
    case StatusRegister => GaveUp
    case AddressHigh => Ran(d.(eeprom := e.(high := b.sstdr, phase := AddressLow)))
    case AddressLow => Ran(d.(eeprom := e.(low := b.sstdr, phase := Bytes)))
    case Bytes =>
      if EepromIndex(e) >= EEPROM_SIZE then OutOfBounds
      else
        Ran(d.(bus := b.(tend := true),
               eeprom := e.(memory := e.memory[EepromIndex(e) := b.sstdr], offset := (e.offset + 1) % EEPROM_PAGE)))
  }

  /** Counts one shifted bit; the count starts over when the byte is complete. */
  function Shift(d: Devices): Devices
    requires d.progress < SHIFT
  {
    d.(progress := if d.progress + 1 == SHIFT then 0 else d.progress + 1)
  }

  /** With `n` bits of a byte shifted. */
  function Shifted(d: Devices, n: u8): Devices { d.(progress := n) }

  predicate ByteComplete(d: Devices) { d.progress + 1 == SHIFT }

  // ---------------------------------------------------------------- LCD

  function LcdIndex(l: Lcd): nat { l.page as int * LCD_STRIPE + l.column as int * 2 + l.byte as int }

  /** The LCD after one data byte: two bytes to a column, then the next column. */
  function Paint(l: Lcd, byte: u8): Lcd
    requires LcdIndex(l) < |l.memory|
  {
    l.(memory := l.memory[LcdIndex(l) := byte],
       column := if l.byte == 1 then Low8(l.column + 1) else l.column,
       byte := (l.byte + 1) % 2)
  }

  function LcdData(d: Devices): (r: Outcome<Devices>)
    requires Ok(d)
    ensures r.Ran? && Ok(r.value)
  {
    if LcdIndex(d.lcd) >= LCD_SIZE then AssertFails
    else Ran(d.(bus := d.bus.(tdre := true, tend := true), lcd := Paint(d.lcd, d.bus.sstdr)))
  }

  function LcdCommand(l: Lcd, command: u8): Lcd {
    var lower := !l.readingContrast && command < 0x10;
    var upper := !l.readingContrast && 0x10 <= command < 0x18;
    var page := !l.readingContrast && 0xB0 <= command < 0xC0;
    Lcd(l.memory,
        if l.readingContrast then command else l.contrast,
        !l.readingContrast && command == 0x81,
        if lower then command + l.column / 0x10 * 0x10
        else if upper then command % 8 * 0x10 + l.column % 0x10
        else l.column,
        if page then command % 0x10 else l.page,
        if lower || upper then 0 else l.byte,
        l.secondBuffer)
  }

  // ---------------------------------------------------------------- one tick

  /** Transmission and reception enabled: the accelerometer if it is selected, else the EEPROM. */
  function Exchange(d: Devices): (r: Outcome<Devices>)
    requires Ok(d)
    ensures r.Ran? ==> Ok(r.value)
  {
    if !d.bus.accelPin then ReadAccel(d)
    else if d.bus.eepromPin then Ran(d)
    else if !ByteComplete(d) then Ran(Shift(d))
    else
      var d' :- ExchangeEepromByte(Shift(d));
      Ran(d'.(bus := d'.bus.(rdrf := true, tdre := true)))
  }

  function TransmitToEeprom(d: Devices): (r: Outcome<Devices>)
    requires Ok(d)
    ensures r.Ran? ==> Ok(r.value)
  {
    if d.bus.eepromPin then Ran(d)
    else if !ByteComplete(d) then Ran(Shift(d))
    else
      var d' :- TransmitEepromByte(Shift(d));
      Ran(d'.(bus := d'.bus.(tdre := true)))
  }

  /** LCD data is shifted like EEPROM bytes; an LCD command is taken at once. */
  function TransmitToLcd(d: Devices): (r: Outcome<Devices>)
    requires Ok(d)
    ensures r.Ran? && Ok(r.value)
  {
    if d.bus.lcdDataPin then
      if !ByteComplete(d) then Ran(Shift(d)) else LcdData(Shift(d))
    else if !d.bus.lcdPin then
      Ran(d.(bus := d.bus.(tdre := true, tend := true), lcd := LcdCommand(d.lcd, d.bus.sstdr)))
    else Ran(d)
  }

  /** Only transmission enabled: every selected device takes the byte, one after the other. */
  function Transmit(d: Devices): (r: Outcome<Devices>)
    requires Ok(d)
    ensures r.Ran? ==> Ok(r.value)
  {
    var d1 :- if d.bus.accelPin then Ran(d) else WriteAccel(d);
    var d2 :- TransmitToEeprom(d1);
    TransmitToLcd(d2)
  }

  function Tick(d: Devices): (r: Outcome<Devices>)
    requires Ok(d)
    ensures r.Ran? ==> Ok(r.value)
  {
    var d0 := if d.bus.te then d else SetTdre(d);
    if d0.bus.te && d0.bus.re then
      if d0.bus.tdre then Ran(d0) else Exchange(d0)
    else if d0.bus.te then
      if d0.bus.tdre then Ran(d0) else Transmit(d0)
    else if d0.bus.re then GaveUp
    else Ran(d0)
  }

  // ---------------------------------------------------------------- what the program does to the bus

  /** Storing a byte register at the address of SSTDR also clears the two transmit flags. */
  function Load(d: Devices, byte: u8): Devices {
    d.(bus := d.bus.(sstdr := byte, tdre := false, tend := false))
  }

  /** After every instruction a deselected device forgets its transaction. */
  function Cleanup(d: Devices): Devices {
    d.(accel := d.accel.(gettingBytes := d.accel.gettingBytes && !d.bus.accelPin,
                         offset := if d.bus.accelPin then 0 else d.accel.offset),
       eeprom := d.eeprom.(phase := if d.bus.eepromPin then Empty else d.eeprom.phase,
                           offset := if d.bus.eepromPin then 0 else d.eeprom.offset))
  }

  /** A step of the devices that keeps what holds in every reachable state. */
  ghost predicate Sound(step: Devices --> Outcome<Devices>) {
    forall d: Devices :: Ok(d) ==> step.requires(d) && (step(d).Ran? ==> Ok(step(d).value))
  }

  /** `n` steps, unless one of them fails. */
  function Repeat(step: Devices --> Outcome<Devices>, d: Devices, n: nat): (r: Outcome<Devices>)
    requires Sound(step) && Ok(d)
    ensures r.Ran? ==> Ok(r.value)
  {
    if n == 0 then Ran(d)
    else
      var before := Repeat(step, d, n - 1);
      if before.Ran? then step(before.value) else before
  }

  function Ticks(d: Devices, n: nat): (r: Outcome<Devices>)
    requires Ok(d)
    ensures r.Ran? ==> Ok(r.value)
  {
    Repeat(Tick, d, n)
  }

  /** The firmware loads a byte and lets the shift finish, `gap` ticks passing before it loads the next one. */
  function Send(d: Devices, byte: u8, gap: nat): (r: Outcome<Devices>)
    requires Ok(d)
    ensures r.Ran? ==> Ok(r.value)
  {
    Ticks(Load(d, byte), 7 + gap)
  }

  /** A data byte and the ticks that pass before the next one. */
  datatype Datum = Datum(byte: u8, gap: nat)

  function SendAll(d: Devices, data: seq<Datum>): (r: Outcome<Devices>)
    requires Ok(d)
    ensures r.Ran? ==> Ok(r.value)
  {
    if data == [] then Ran(d)
    else
      var last := |data| - 1;
      var before := SendAll(d, data[..last]);
      if before.Ran? then Send(before.value, data[last].byte, data[last].gap) else before
  }

  /** With transmission disabled a tick sets TDRE, and stops the emulator if reception is enabled. */
  lemma TickWithoutTransmission(d: Devices)
    requires Ok(d) && !d.bus.te
    ensures Tick(d) == if d.bus.re then GaveUp else Ran(d.(bus := d.bus.(tdre := true)))
  {
  }

  lemma TickIdles(d: Devices)
    requires Ok(d) && d.bus.te && d.bus.tdre
    ensures Tick(d) == Ran(d)
  {
  }

  lemma {:induction false} RepeatIdles(step: Devices --> Outcome<Devices>, d: Devices, d': Devices, n: nat, gap: nat)
    requires Sound(step) && Ok(d) && Ok(d') && Repeat(step, d, n) == Ran(d') && step(d') == Ran(d')
    ensures Repeat(step, d, n + gap) == Ran(d')
  {
    if gap > 0 {
      RepeatIdles(step, d, d', n, gap - 1);
    }
  }

  lemma {:induction false} RepeatFails(step: Devices --> Outcome<Devices>, d: Devices, n: nat, gap: nat)
    requires Sound(step) && Ok(d) && !Repeat(step, d, n).Ran?
    ensures Repeat(step, d, n + gap) == Repeat(step, d, n)
  {
    if gap > 0 {
      RepeatFails(step, d, n, gap - 1);
    }
  }

  /** Steps that each shift one more bit. */
  lemma {:induction false} RepeatShifts(step: Devices --> Outcome<Devices>, d: Devices, n: nat)
    requires Sound(step) && Ok(d) && d.progress == 0 && n < SHIFT
    requires forall k: nat :: k < n ==> step(Shifted(d, k)) == Ran(Shifted(d, k + 1))
    ensures Repeat(step, d, n) == Ran(Shifted(d, n))
  {
    if n > 0 {
      RepeatShifts(step, d, n - 1);
    }
  }

  lemma OneMoreTick(d: Devices, n: nat)
    requires Ok(d) && Ticks(d, n).Ran?
    ensures Ticks(d, n + 1) == Tick(Ticks(d, n).value)
  {
  }

  lemma IdleTicks(d: Devices, d': Devices, n: nat, gap: nat)
    requires Ok(d) && Ok(d') && Ticks(d, n) == Ran(d') && Tick(d') == Ran(d')
    ensures Ticks(d, n + gap) == Ran(d')
  {
    RepeatIdles(Tick, d, d', n, gap);
  }

  /** With TDRE set nothing is on its way, however long the unit ticks. */
  lemma TicksIdle(d: Devices, n: nat)
    requires Ok(d) && d.bus.te && d.bus.tdre
    ensures Ticks(d, n) == Ran(d)
  {
    TickIdles(d);
    assert Ticks(d, 0) == Ran(d);
    IdleTicks(d, d, 0, n);
  }

  lemma FailureStays(d: Devices, n: nat, gap: nat)
    requires Ok(d) && !Ticks(d, n).Ran?
    ensures Ticks(d, n + gap) == Ticks(d, n)
  {
    RepeatFails(Tick, d, n, gap);
  }

  // ---------------------------------------------------------------- safety over every run

  /** Anything the program or the host can do between two ticks. */
  datatype Action = Clock | Store(bus: Bus) | Instruction | Frame

  function Act(d: Devices, a: Action): Outcome<Devices>
    requires Ok(d)
  {
    match a
    case Clock => Tick(d)
    case Store(bus) => Ran(d.(bus := bus))
    case Instruction => Ran(Cleanup(d))
    case Frame => Ran(d.(lcd := d.lcd.(secondBuffer := !d.lcd.secondBuffer)))
  }

  function Run(d: Devices, actions: seq<Action>): (r: Outcome<Devices>)
    requires Ok(d)
    ensures r.Ran? ==> Ok(r.value)
  {
    if actions == [] then Ran(d)
    else
      var before := Run(d, actions[..|actions| - 1]);
      if before.Ran? then Act(before.value, actions[|actions| - 1]) else before
  }

  lemma ActNeverAsserts(d: Devices, a: Action)
    requires Ok(d)
    ensures !Act(d, a).AssertFails?
  {
    if a.Clock? {
      var d0 := if d.bus.te then d else SetTdre(d);
      assert !Exchange(d0).AssertFails?;
      assert !Transmit(d0).AssertFails?;
    }
  }

  /** However the program drives the bus, the LCD index assertion never fires. */
  lemma {:induction false} LcdAssertionNeverFires(d: Devices, actions: seq<Action>)
    requires Ok(d)
    ensures !Run(d, actions).AssertFails?
  {
    if actions != [] {
      var before := Run(d, actions[..|actions| - 1]);
      LcdAssertionNeverFires(d, actions[..|actions| - 1]);
      if before.Ran? {
        ActNeverAsserts(before.value, actions[|actions| - 1]);
      }
    }
  }
}

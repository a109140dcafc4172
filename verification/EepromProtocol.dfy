/** Serial transactions with the EEPROM: programming a page, and reading back what was written. */
module EepromProtocol {
  import opened Words
  import opened Ssu

  /** Only the EEPROM listens. */
  predicate Selected(b: Bus) {
    b.accelPin && !b.eepromPin && !b.lcdDataPin && b.lcdPin
  }

  predicate Writing(b: Bus) { b.te && !b.re }

  predicate Reading(b: Bus) { b.te && b.re }

  // ---------------------------------------------------------------- one byte

  /** What a complete byte does, in either direction. */
  function TakeByte(d: Devices): (r: Outcome<Devices>)
    requires Ok(d)
    ensures r.Ran? ==> Ok(r.value)
  {
    if d.bus.re then
      var d' :- ExchangeEepromByte(d);
      Ran(d'.(bus := d'.bus.(rdrf := true, tdre := true)))
    else
      var d' :- TransmitEepromByte(d);
      Ran(d'.(bus := d'.bus.(tdre := true)))
  }

  /** While TDRE is clear a tick counts one bit, and the seventh completes the byte. */
  lemma TickShifts(d: Devices)
    requires Ok(d) && Selected(d.bus) && d.bus.te && !d.bus.tdre
    ensures Tick(d) == if ByteComplete(d) then TakeByte(Shift(d)) else Ran(Shift(d))
  {
  }

  lemma ShiftingTicks(d: Devices, n: nat)
    requires Ok(d) && Selected(d.bus) && d.bus.te && !d.bus.tdre
    requires d.progress == 0 && n < SHIFT
    ensures Ticks(d, n) == Ran(Shifted(d, n))
  {
    forall k: nat | k < n
      ensures Tick(Shifted(d, k)) == Ran(Shifted(d, k + 1))
    {
      TickShifts(Shifted(d, k));
    }
    RepeatShifts(Tick, d, n);
  }

  /** Six ticks after a load only count bits, the seventh delivers the byte, and further ticks change nothing. */
  lemma TicksDeliver(l: Devices, gap: nat)
    requires Ok(l) && Selected(l.bus) && l.bus.te && !l.bus.tdre && l.progress == 0
    ensures forall n: nat :: n < 7 ==> Ticks(l, n) == Ran(Shifted(l, n))
    ensures Ticks(l, 7 + gap) == TakeByte(l)
  {
    forall m: nat | m < 7
      ensures Ticks(l, m) == Ran(Shifted(l, m))
    {
      ShiftingTicks(l, m);
    }
    var n := SHIFT - 1;
    ShiftingTicks(l, n);
    TickShifts(Shifted(l, n));
    assert Shift(Shifted(l, n)) == l;
    OneMoreTick(l, n);
    assert Ticks(l, n + 1) == TakeByte(l);
    if TakeByte(l).Ran? {
      TakenByteSetsTdre(l);
      TickIdles(TakeByte(l).value);
      IdleTicks(l, TakeByte(l).value, n + 1, gap);
    } else {
      FailureStays(l, n + 1, gap);
    }
  }

  /** A byte changes nothing but the EEPROM, the received byte and the status flags. */
  predicate OnlyByteEffects(d: Devices, t: Devices) {
    && t.progress == d.progress && t.accel == d.accel && t.lcd == d.lcd
    && t.bus.te == d.bus.te && t.bus.re == d.bus.re && t.bus.sstdr == d.bus.sstdr
    && t.bus.accelPin == d.bus.accelPin && t.bus.eepromPin == d.bus.eepromPin
    && t.bus.lcdPin == d.bus.lcdPin && t.bus.lcdDataPin == d.bus.lcdDataPin
  }

  lemma ExchangeByteEffects(d: Devices)
    requires Ok(d) && ExchangeEepromByte(d).Ran?
    ensures OnlyByteEffects(d, ExchangeEepromByte(d).value)
  {
    match d.eeprom.phase
    case Empty =>
    case StatusRegister =>
    case AddressHigh =>
    case AddressLow =>
    case Bytes =>
  }

  lemma TransmitByteEffects(d: Devices)
    requires Ok(d) && TransmitEepromByte(d).Ran?
    ensures OnlyByteEffects(d, TransmitEepromByte(d).value)
  {
    match d.eeprom.phase
    case Empty =>
    case StatusRegister =>
    case AddressHigh =>
    case AddressLow =>
    case Bytes =>
  }

  lemma TakenByteSetsTdre(d: Devices)
    requires Ok(d) && TakeByte(d).Ran?
    ensures OnlyByteEffects(d, TakeByte(d).value) && TakeByte(d).value.bus.tdre
  {
    if d.bus.re {
      ExchangeByteEffects(d);
    } else {
      TransmitByteEffects(d);
    }
  }

  /** Sending a byte delivers it once, whatever the pause, and the shift count is 0 again. */
  lemma SendDelivers(d: Devices, byte: u8, gap: nat)
    requires Ok(d) && Selected(d.bus) && d.bus.te && d.progress == 0
    ensures Send(d, byte, gap) == TakeByte(Load(d, byte))
    ensures Send(d, byte, gap).Ran? ==>
              var t := Send(d, byte, gap).value;
              t.progress == 0 && Selected(t.bus) && t.bus.te == d.bus.te && t.bus.re == d.bus.re
  {
    TicksDeliver(Load(d, byte), gap);
    if TakeByte(Load(d, byte)).Ran? {
      TakenByteSetsTdre(Load(d, byte));
    }
  }

  /**
   The flags behind a byte, which the program waits for: TDRE with every byte, RDRF with every one while reception is
   enabled, and TEND only behind data bytes, status bytes and WREN.
   */
  lemma FlagsBehindByte(d: Devices, byte: u8, gap: nat)
    requires Ok(d) && Selected(d.bus) && d.bus.te && d.progress == 0 && Send(d, byte, gap).Ran?
    ensures var b, t, phase := d.bus, Send(d, byte, gap).value.bus, d.eeprom.phase;
            && t == b.(sstdr := byte, ssrdr := t.ssrdr, rdrf := b.rdrf || b.re, tdre := true, tend := t.tend)
            && (t.tend <==> phase.Bytes? || (if b.re then phase.StatusRegister? else phase.Empty? && byte == 6))
            && (!(b.re && t.tend) ==> t.ssrdr == b.ssrdr)
  {
    SendDelivers(d, byte, gap);
    FlagsOfTakenByte(Load(d, byte));
  }

  lemma FlagsOfTakenByte(l: Devices)
    requires Ok(l) && TakeByte(l).Ran? && !l.bus.tend
    ensures var b, t, phase := l.bus, TakeByte(l).value.bus, l.eeprom.phase;
            && t == b.(ssrdr := t.ssrdr, rdrf := b.rdrf || b.re, tdre := true, tend := t.tend)
            && (t.tend <==> phase.Bytes? || (if b.re then phase.StatusRegister? else phase.Empty? && b.sstdr == 6))
            && (!(b.re && t.tend) ==> t.ssrdr == b.ssrdr)
  {
    hide ExchangeEepromByte, TransmitEepromByte;
    if l.bus.re {
      ExchangeFlags(l);
    } else {
      TransmitFlags(l);
    }
  }

  lemma ExchangeFlags(l: Devices)
    requires Ok(l) && ExchangeEepromByte(l).Ran? && !l.bus.tend
    ensures var t := ExchangeEepromByte(l).value.bus;
            && t == l.bus.(ssrdr := t.ssrdr, tend := t.tend)
            && (t.tend <==> l.eeprom.phase.Bytes? || l.eeprom.phase.StatusRegister?)
            && (!t.tend ==> t.ssrdr == l.bus.ssrdr)
  {
    hide Ok;
    match l.eeprom.phase
    case Empty =>
    case StatusRegister =>
    case AddressHigh =>
    case AddressLow =>
    case Bytes =>
  }

  lemma TransmitFlags(l: Devices)
    requires Ok(l) && TransmitEepromByte(l).Ran? && !l.bus.tend
    ensures var t := TransmitEepromByte(l).value.bus;
            && t == l.bus.(tend := t.tend)
            && (t.tend <==> l.eeprom.phase.Bytes? || (l.eeprom.phase.Empty? && l.bus.sstdr == 6))
  {
    hide Ok, Raise;
    match l.eeprom.phase
    case Empty =>
    case StatusRegister =>
    case AddressHigh =>
    case AddressLow =>
    case Bytes =>
  }

  // ---------------------------------------------------------------- a WRITE transaction

  /** The device is listening, between bytes, at the given point of a transaction. */
  predicate At(d: Devices, phase: Phase, offset: int) {
    && Ok(d) && Selected(d.bus) && d.progress == 0
    && d.eeprom.phase == phase && d.eeprom.offset == offset
  }

  /** The three bytes that open a transaction. */
  datatype Header = Header(command: Datum, high: Datum, low: Datum)

  function Begin(d: Devices, h: Header): (r: Outcome<Devices>)
    requires Ok(d)
    ensures r.Ran? ==> Ok(r.value)
  {
    var d1 :- Send(d, h.command.byte, h.command.gap);
    var d2 :- Send(d1, h.high.byte, h.high.gap);
    Send(d2, h.low.byte, h.low.gap)
  }

  function Address(h: Header): nat { h.high.byte as int * 0x100 + h.low.byte as int }

  /** The last data byte that lands on page offset `j` when `n` bytes wrap around the page, if there is one. */
  function LastAt(n: nat, j: nat): (i: int)
    requires j < 128
    ensures if n <= j then i < 0 else 0 <= i < n && i % 128 == j
    ensures forall k :: i < k < n && k >= 0 ==> k % 128 != j
  {
    if n <= j then -1 else j + (n - 1 - j) / 128 * 128
  }

  function ProgrammedByte(memory: seq<u8>, base: nat, data: seq<Datum>, a: nat): u8
    requires a < |memory|
  {
    if base <= a < base + 128 && LastAt(|data|, a - base) >= 0
    then data[LastAt(|data|, a - base)].byte
    else memory[a]
  }

  /** The memory after programming: the last byte for each offset, the old one where there is none. */
  function Programmed(memory: seq<u8>, base: nat, data: seq<Datum>): (r: seq<u8>)
    ensures |r| == |memory|
  {
    seq(|memory|, a requires 0 <= a < |memory| => ProgrammedByte(memory, base, data, a))
  }

  /** The three opening bytes leave the device waiting for data at the address. */
  lemma BeginReachesData(d: Devices, h: Header)
    requires At(d, Empty, 0) && d.bus.te && h.command.byte == (if d.bus.re then 3 else 2)
    ensures Begin(d, h).Ran?
    ensures var t := Begin(d, h).value;
            && At(t, Bytes, 0) && t.bus.te == d.bus.te && t.bus.re == d.bus.re
            && t.eeprom == d.eeprom.(high := h.high.byte, low := h.low.byte, phase := Bytes)
            && t.accel == d.accel && t.lcd == d.lcd
  {
    OpensWith(d, h.command.byte, h.command.gap);
    var d1 := Send(d, h.command.byte, h.command.gap).value;
    AddressHighTaken(d1, h.high.byte, h.high.gap);
    var d2 := Send(d1, h.high.byte, h.high.gap).value;
    AddressLowTaken(d2, h.low.byte, h.low.gap);
  }

  lemma OpensWith(d: Devices, command: u8, gap: nat)
    requires At(d, Empty, 0) && d.bus.te && command == (if d.bus.re then 3 else 2)
    ensures Send(d, command, gap).Ran?
    ensures var t := Send(d, command, gap).value;
            && At(t, AddressHigh, 0) && t.bus.te == d.bus.te && t.bus.re == d.bus.re
            && t.eeprom == d.eeprom.(phase := AddressHigh) && t.accel == d.accel && t.lcd == d.lcd
  {
    SendDelivers(d, command, gap);
    TakenByteSetsTdre(Load(d, command));
  }

  lemma AddressHighTaken(d: Devices, high: u8, gap: nat)
    requires At(d, AddressHigh, 0) && d.bus.te
    ensures Send(d, high, gap).Ran?
    ensures var t := Send(d, high, gap).value;
            && At(t, AddressLow, 0) && t.bus.te == d.bus.te && t.bus.re == d.bus.re
            && t.eeprom == d.eeprom.(high := high, phase := AddressLow) && t.accel == d.accel && t.lcd == d.lcd
  {
    SendDelivers(d, high, gap);
    TakenByteSetsTdre(Load(d, high));
  }

  lemma AddressLowTaken(d: Devices, low: u8, gap: nat)
    requires At(d, AddressLow, 0) && d.bus.te
    ensures Send(d, low, gap).Ran?
    ensures var t := Send(d, low, gap).value;
            && At(t, Bytes, 0) && t.bus.te == d.bus.te && t.bus.re == d.bus.re
            && t.eeprom == d.eeprom.(low := low, phase := Bytes) && t.accel == d.accel && t.lcd == d.lcd
  {
    SendDelivers(d, low, gap);
    TakenByteSetsTdre(Load(d, low));
  }

  /** The EEPROM after one data byte of a WRITE; `None` when the address does not exist. */
  function Put(e: Eeprom, byte: u8): Option<Eeprom>
    requires |e.memory| == EEPROM_SIZE
  {
    if EepromIndex(e) >= EEPROM_SIZE then None
    else Some(e.(memory := e.memory[EepromIndex(e) := byte], offset := (e.offset + 1) % 128))
  }

  function PutAll(e: Eeprom, data: seq<Datum>): (r: Option<Eeprom>)
    requires |e.memory| == EEPROM_SIZE
    ensures r.Some? ==> |r.value.memory| == EEPROM_SIZE
  {
    if data == [] then Some(e)
    else
      var before := PutAll(e, data[..|data| - 1]);
      if before.None? then None else Put(before.value, data[|data| - 1].byte)
  }

  /** A device in the data phase of a WRITE. */
  predicate TakesData(d: Devices) {
    Ok(d) && Selected(d.bus) && d.progress == 0 && d.eeprom.phase == Bytes && Writing(d.bus)
  }

  /** One data byte of a WRITE. */
  lemma SendPuts(d: Devices, byte: u8, gap: nat)
    requires TakesData(d)
    ensures match Put(d.eeprom, byte)
            case None => Send(d, byte, gap).OutOfBounds?
            case Some(e) =>
              && Send(d, byte, gap).Ran?
              && var t := Send(d, byte, gap).value;
                 TakesData(t) && t.eeprom == e && t.accel == d.accel && t.lcd == d.lcd
  {
    SendDelivers(d, byte, gap);
    if Put(d.eeprom, byte).Some? {
      TakenByteSetsTdre(Load(d, byte));
    }
  }

  lemma {:induction false} SendAllPuts(d: Devices, data: seq<Datum>)
    requires TakesData(d)
    ensures match PutAll(d.eeprom, data)
            case None => SendAll(d, data).OutOfBounds?
            case Some(e) =>
              && SendAll(d, data).Ran?
              && var t := SendAll(d, data).value;
                 TakesData(t) && t.eeprom == e && t.accel == d.accel && t.lcd == d.lcd
  {
    if data != [] {
      var last := |data| - 1;
      SendAllPuts(d, data[..last]);
      if PutAll(d.eeprom, data[..last]).Some? {
        SendPuts(SendAll(d, data[..last]).value, data[last].byte, data[last].gap);
      }
    }
  }

  /** One more byte moves the last byte of its own page offset and of no other. */
  lemma LastAtNext(n: nat, j: nat)
    requires j < 128
    ensures LastAt(n + 1, j) == if n % 128 == j then n else LastAt(n, j)
  {
  }

  lemma ProgrammedNext(memory: seq<u8>, base: nat, data: seq<Datum>, last: nat)
    requires |data| == last + 1 && base + last % 128 < |memory|
    ensures Programmed(memory, base, data)
         == Programmed(memory, base, data[..last])[base + last % 128 := data[last].byte]
  {
    var at := base + last % 128;
    forall a: nat | a < |memory|
      ensures ProgrammedByte(memory, base, data, a)
           == if a == at then data[last].byte else ProgrammedByte(memory, base, data[..last], a)
    {
      if base <= a < base + 128 {
        LastAtNext(last, a - base);
      }
    }
  }

  function WriteTransaction(d: Devices, h: Header, data: seq<Datum>): (r: Outcome<Devices>)
    requires Ok(d)
    ensures r.Ran? ==> Ok(r.value)
  {
    var d' :- Begin(d, h);
    SendAll(d', data)
  }

  /** The page offset counts modulo 128 and never exceeds the number of bytes sent. */
  lemma NextOffset(n: nat, next: nat)
    requires next == n + 1
    ensures (n % 128 + 1) % 128 == next % 128
    ensures n % 128 < Min(next, 128)
  {
  }

  /** The bytes sent fit if and only if those before the last do and its own address exists. */
  lemma PageFits(base: nat, last: nat, n: nat)
    requires n == last + 1
    ensures base + Min(n, 128) <= EEPROM_SIZE
        <==> base + Min(last, 128) <= EEPROM_SIZE && base + last % 128 < EEPROM_SIZE
  {
  }

  /** One data byte behind `n` others. */
  lemma PutNext(e: Eeprom, memory: seq<u8>, n: nat, byte: u8)
    requires |e.memory| == |memory| == EEPROM_SIZE && e.offset == 0
    ensures var at, next := EepromIndex(e) + n % 128, n + 1;
            Put(e.(memory := memory, offset := n % 128), byte)
            == if at >= EEPROM_SIZE then None
               else Some(e.(memory := memory[at := byte], offset := next % 128))
  {
    NextOffset(n, n + 1);
  }

  /** The data phase programs the page as long as every touched address exists, and fails otherwise. */
  lemma {:induction false} PutAllPrograms(e: Eeprom, data: seq<Datum>)
    requires |e.memory| == EEPROM_SIZE && e.offset == 0
    ensures PutAll(e, data)
         == if EepromIndex(e) + Min(|data|, 128) > EEPROM_SIZE then None
            else Some(e.(memory := Programmed(e.memory, EepromIndex(e), data), offset := |data| % 128))
  {
    if data == [] {
      assert Programmed(e.memory, EepromIndex(e), []) == e.memory;
    } else {
      hide Programmed, Put, EepromIndex;
      var last := |data| - 1;
      PutAllPrograms(e, data[..last]);
      if PutAll(e, data[..last]).Some? {
        PutNext(e, Programmed(e.memory, EepromIndex(e), data[..last]), last, data[last].byte);
        if EepromIndex(e) + last % 128 < EEPROM_SIZE {
          ProgrammedNext(e.memory, EepromIndex(e), data, last);
        }
      }
      PageFits(EepromIndex(e), last, |data|);
    }
  }

  /** The state `r` after sending `data` to the device `d`, whose address registers hold `base`. */
  predicate PageProgrammed(d: Devices, base: nat, data: seq<Datum>, r: Outcome<Devices>) {
    && (r.Ran? <==> base + Min(|data|, 128) <= 0x1_0000)
    && (!r.Ran? ==> r.OutOfBounds?)
    && (r.Ran? ==>
          && r.value.progress == 0 && Selected(r.value.bus) && Writing(r.value.bus)
          && r.value.eeprom.memory == Programmed(d.eeprom.memory, base, data)
          && r.value.eeprom.status == d.eeprom.status
          && r.value.accel == d.accel && r.value.lcd == d.lcd)
  }

  lemma DataPhaseProgramsPage(d: Devices, data: seq<Datum>)
    requires TakesData(d) && d.eeprom.offset == 0
    ensures PageProgrammed(d, EepromIndex(d.eeprom), data, SendAll(d, data))
  {
    SendAllPuts(d, data);
    PutAllPrograms(d.eeprom, data);
  }

  /**
   A WRITE of any number of bytes stays within the device exactly when the bytes of the page that it touches
   exist. It then leaves each page offset with the last byte sent for it (or its old byte if none was), every
   other byte of the device unchanged, and the shift count at 0.
   */
  lemma WriteProgramsPage(d: Devices, h: Header, data: seq<Datum>)
    requires At(d, Empty, 0) && Writing(d.bus) && h.command.byte == 2
    ensures PageProgrammed(d, Address(h), data, WriteTransaction(d, h, data))
  {
    BeginReachesData(d, h);
    var t := Begin(d, h).value;
    DataPhaseProgramsPage(t, data);
    assert EepromIndex(t.eeprom) == Address(h);
    assert WriteTransaction(d, h, data) == SendAll(t, data);
  }

  // ---------------------------------------------------------------- reading back

  /** Each dummy byte of a READ fetches one byte. */
  function Receive(d: Devices, pauses: seq<Datum>): (r: Outcome<(Devices, seq<u8>)>)
    requires Ok(d)
    ensures r.Ran? ==> Ok(r.value.0)
  {
    if pauses == [] then Ran((d, []))
    else
      var last := |pauses| - 1;
      var (d', got) :- Receive(d, pauses[..last]);
      var d'' :- Send(d', pauses[last].byte, pauses[last].gap);
      Ran((d'', got + [d''.bus.ssrdr]))
  }

  function ReadTransaction(d: Devices, h: Header, pauses: seq<Datum>): (r: Outcome<(Devices, seq<u8>)>)
    requires Ok(d)
  {
    var d' :- Begin(d, h);
    Receive(d', pauses)
  }

  lemma DataByteRead(d: Devices, byte: u8, gap: nat)
    requires Ok(d) && At(d, Bytes, d.eeprom.offset) && Reading(d.bus) && EepromIndex(d.eeprom) < EEPROM_SIZE
    ensures Send(d, byte, gap).Ran?
    ensures var t := Send(d, byte, gap).value;
            && At(t, Bytes, Low16(d.eeprom.offset + 1)) && Reading(t.bus)
            && t.eeprom == d.eeprom.(offset := Low16(d.eeprom.offset + 1))
            && t.bus.ssrdr == d.eeprom.memory[EepromIndex(d.eeprom)]
            && t.accel == d.accel && t.lcd == d.lcd
  {
    SendDelivers(d, byte, gap);
    TakenByteSetsTdre(Load(d, byte));
  }

  /** The address counter of a READ, unlike that of a WRITE, does not wrap in its page but at 65536. */
  const READ_WRAP: int := 0x1_0000

  /** The byte that the k-th dummy byte of a READ fetches. */
  function ReadByte(memory: seq<u8>, base: nat, k: nat): u8
    requires base + k % READ_WRAP < |memory|
  {
    memory[base + k % READ_WRAP]
  }

  /** These bytes were fetched from `base` on. */
  ghost predicate Fetched(memory: seq<u8>, base: nat, got: seq<u8>) {
    forall k: nat :: k < |got| ==> base + k % READ_WRAP < |memory| && got[k] == ReadByte(memory, base, k)
  }

  /** The outcome of receiving `n` bytes in the data phase. */
  ghost predicate Received(d: Devices, n: nat, r: Outcome<(Devices, seq<u8>)>)
    requires Ok(d)
  {
    var base := EepromIndex(d.eeprom);
    && (r.Ran? <==> base + Min(n, READ_WRAP) <= EEPROM_SIZE)
    && (!r.Ran? ==> r.OutOfBounds?)
    && (r.Ran? ==>
          var (t, got) := r.value;
          && At(t, Bytes, t.eeprom.offset) && Reading(t.bus)
          && t.eeprom == d.eeprom.(offset := Low16(n))
          && t.accel == d.accel && t.lcd == d.lcd
          && |got| == n && Fetched(d.eeprom.memory, base, got))
  }

  lemma NextReadOffset(n: nat)
    ensures Low16(Low16(n) + 1) == Low16(n + 1) && Low16(n) < Min(n + 1, READ_WRAP)
  {
  }

  /** The last byte fits exactly when its address exists. */
  lemma ReadFits(base: nat, n: nat)
    requires base + Min(n, READ_WRAP) <= EEPROM_SIZE
    ensures base + Low16(n) as int < EEPROM_SIZE <==> base + Min(n + 1, READ_WRAP) <= EEPROM_SIZE
  {
  }

  lemma DataByteMissing(d: Devices, byte: u8, gap: nat)
    requires Ok(d) && At(d, Bytes, d.eeprom.offset) && Reading(d.bus) && EepromIndex(d.eeprom) >= EEPROM_SIZE
    ensures Send(d, byte, gap).OutOfBounds?
  {
    SendDelivers(d, byte, gap);
  }

  /** What one more dummy byte does to what was received. */
  function ReceiveOne(r: Outcome<(Devices, seq<u8>)>, byte: u8, gap: nat): (s: Outcome<(Devices, seq<u8>)>)
    requires r.Ran? ==> Ok(r.value.0)
    ensures s.Ran? ==> Ok(s.value.0)
  {
    var (t, got) :- r;
    var u :- Send(t, byte, gap);
    Ran((u, got + [u.bus.ssrdr]))
  }

  lemma OneMoreFetched(memory: seq<u8>, base: nat, got: seq<u8>, byte: u8)
    requires Fetched(memory, base, got) && base + |got| % READ_WRAP < |memory| && byte == ReadByte(memory, base, |got|)
    ensures Fetched(memory, base, got + [byte])
  {
  }

  lemma OneMoreReceived(d: Devices, n: nat, t: Devices, got: seq<u8>, byte: u8, gap: nat)
    requires At(d, Bytes, 0) && Received(d, n, Ran((t, got)))
    ensures Received(d, n + 1, ReceiveOne(Ran((t, got)), byte, gap))
  {
    hide Send, Fetched;
    NextReadOffset(n);
    ReadFits(EepromIndex(d.eeprom), n);
    assert EepromIndex(t.eeprom) == EepromIndex(d.eeprom) + n % READ_WRAP;
    if EepromIndex(t.eeprom) < EEPROM_SIZE {
      DataByteRead(t, byte, gap);
      OneMoreFetched(d.eeprom.memory, EepromIndex(d.eeprom), got, d.eeprom.memory[EepromIndex(t.eeprom)]);
    } else {
      DataByteMissing(t, byte, gap);
    }
  }

  lemma {:induction false} DataPhaseReads(d: Devices, pauses: seq<Datum>)
    requires At(d, Bytes, 0) && Reading(d.bus)
    ensures Received(d, |pauses|, Receive(d, pauses))
  {
    if pauses != [] {
      var last := |pauses| - 1;
      DataPhaseReads(d, pauses[..last]);
      var before := Receive(d, pauses[..last]);
      assert Receive(d, pauses) == ReceiveOne(before, pauses[last].byte, pauses[last].gap);
      if before.Ran? {
        OneMoreReceived(d, last, before.value.0, before.value.1, pauses[last].byte, pauses[last].gap);
      }
    }
  }

  /**
   A READ of any number of bytes stays within the device exactly when the bytes up to the end of the device, or all of
   it, are enough. It then returns the bytes of the device, from its address on and wrapping at 65536, and changes none.
   */
  lemma ReadReturnsMemory(d: Devices, h: Header, pauses: seq<Datum>)
    requires At(d, Empty, 0) && Reading(d.bus) && h.command.byte == 3
    ensures var r := ReadTransaction(d, h, pauses);
            && (r.Ran? <==> Address(h) + Min(|pauses|, 0x1_0000) <= 0x1_0000)
            && (!r.Ran? ==> r.OutOfBounds?)
            && (r.Ran? ==>
                  var (t, got) := r.value;
                  && |got| == |pauses| && Fetched(d.eeprom.memory, Address(h), got)
                  && t.eeprom.memory == d.eeprom.memory && t.progress == 0)
  {
    BeginReachesData(d, h);
    var t := Begin(d, h).value;
    assert EepromIndex(t.eeprom) == Address(h);
    DataPhaseReads(t, pauses);
  }

  // ---------------------------------------------------------------- round trip

  /** The program raises the select pin, some instruction completes, and it selects again to read. */
  function Reselect(d: Devices): Devices {
    var off := Cleanup(d.(bus := d.bus.(eepromPin := true)));
    off.(bus := off.bus.(eepromPin := false, re := true))
  }

  function TheBytes(data: seq<Datum>): (r: seq<u8>)
    ensures |r| == |data|
  {
    seq(|data|, i requires 0 <= i < |data| => data[i].byte)
  }

  lemma ShortDataStays(n: nat, i: nat)
    requires i < n <= 128
    ensures LastAt(n, i) == i
  {
  }

  /** Fewer bytes than the device holds are fetched without wrapping. */
  lemma ShortFetch(memory: seq<u8>, base: nat, got: seq<u8>)
    requires Fetched(memory, base, got) && |got| < READ_WRAP && base + |got| <= |memory|
    ensures got == memory[base..base + |got|]
  {
    forall k: nat | k < |got|
      ensures got[k] == memory[base + k]
    {
      assert got[k] == ReadByte(memory, base, k) && k % READ_WRAP == k;
    }
  }

  /** Data that fits in a page lies in it in order. */
  lemma ShortPageProgrammed(before: seq<u8>, after: seq<u8>, base: nat, data: seq<Datum>)
    requires |before| == EEPROM_SIZE && |data| <= 128 && base + |data| <= EEPROM_SIZE
    requires after == Programmed(before, base, data)
    ensures after[base..base + |data|] == TheBytes(data)
    ensures forall a: nat :: a < EEPROM_SIZE && !(base <= a < base + |data|) ==> after[a] == before[a]
  {
    forall i: nat | i < |data|
      ensures after[base + i] == data[i].byte
    {
      ShortDataStays(|data|, i);
      assert ProgrammedByte(before, base, data, base + i) == data[i].byte;
    }
  }

  /**
   Writing up to a page of bytes, deselecting, and reading the same address returns those bytes;
   every byte outside the written range is unchanged.
   */
  lemma WriteThenRead(d: Devices, w: Header, data: seq<Datum>, r: Header, pauses: seq<Datum>)
    requires At(d, Empty, 0) && Writing(d.bus) && w.command.byte == 2 && r.command.byte == 3
    requires r.high.byte == w.high.byte && r.low.byte == w.low.byte
    requires |data| == |pauses| <= 128 && Address(w) + |data| <= 0x1_0000
    ensures WriteTransaction(d, w, data).Ran?
    ensures var written := WriteTransaction(d, w, data).value;
            && Ok(Reselect(written))
            && ReadTransaction(Reselect(written), r, pauses).Ran?
            && ReadTransaction(Reselect(written), r, pauses).value.1 == TheBytes(data)
            && (forall a: nat :: a < EEPROM_SIZE && !(Address(w) <= a < Address(w) + |data|) ==>
                  written.eeprom.memory[a] == d.eeprom.memory[a])
  {
    hide WriteTransaction, ReadTransaction, Programmed, Fetched;
    WriteProgramsPage(d, w, data);
    var written := WriteTransaction(d, w, data).value;
    var again := Reselect(written);
    assert At(again, Empty, 0) && Reading(again.bus) && again.eeprom.memory == written.eeprom.memory;
    ReadReturnsMemory(again, r, pauses);
    ShortFetch(again.eeprom.memory, Address(r), ReadTransaction(again, r, pauses).value.1);
    ShortPageProgrammed(d.eeprom.memory, written.eeprom.memory, Address(w), data);
  }

  // ---------------------------------------------------------------- the status register

  /** WREN, which is a byte by itself, raises bit 1 of the status and changes nothing else in the device. */
  lemma WriteEnableRaises(d: Devices, gap: nat)
    requires At(d, Empty, 0) && Writing(d.bus)
    ensures Send(d, 6, gap).Ran?
    ensures var e, t := d.eeprom, Send(d, 6, gap).value;
            && At(t, Empty, 0) && Writing(t.bus) && t.eeprom == e.(status := t.eeprom.status)
            && t.eeprom.status == e.status as int + (if e.status / 2 % 2 == 0 then 2 else 0)
            && t.accel == d.accel && t.lcd == d.lcd
  {
    SendDelivers(d, 6, gap);
    TakenByteSetsTdre(Load(d, 6));
  }

  /** RDSR yields the status with every byte that is shifted behind it, for as long as the device stays selected. */
  lemma {:induction false} StatusIsRead(d: Devices, gap: nat, pauses: seq<Datum>)
    requires At(d, Empty, 0) && Reading(d.bus)
    ensures Send(d, 5, gap).Ran? && Receive(Send(d, 5, gap).value, pauses).Ran?
    ensures var (t, got) := Receive(Send(d, 5, gap).value, pauses).value;
            && |got| == |pauses| && (forall k: nat :: k < |got| ==> got[k] == d.eeprom.status)
            && At(t, StatusRegister, 0) && Reading(t.bus) && t.eeprom == d.eeprom.(phase := StatusRegister)
            && t.accel == d.accel && t.lcd == d.lcd
  {
    if pauses == [] {
      SendDelivers(d, 5, gap);
      TakenByteSetsTdre(Load(d, 5));
    } else {
      var last := |pauses| - 1;
      StatusIsRead(d, gap, pauses[..last]);
      var t := Receive(Send(d, 5, gap).value, pauses[..last]).value.0;
      SendDelivers(t, pauses[last].byte, pauses[last].gap);
      TakenByteSetsTdre(Load(t, pauses[last].byte));
    }
  }

  /** A WREN, a deselect and an RDSR: every byte read has bit 1 set and the other bits of the status before. */
  lemma WriteEnableIsRead(d: Devices, gap: nat, gap': nat, pauses: seq<Datum>, k: nat)
    requires At(d, Empty, 0) && Writing(d.bus) && k < |pauses|
    ensures Send(d, 6, gap).Ran? && Ok(Reselect(Send(d, 6, gap).value))
    ensures var asked := Send(Reselect(Send(d, 6, gap).value), 5, gap');
            && asked.Ran? && Receive(asked.value, pauses).Ran?
            && var (t, got) := Receive(asked.value, pauses).value;
               && |got| == |pauses| && t.eeprom.memory == d.eeprom.memory
               && got[k] / 2 % 2 == 1 && got[k] % 2 == d.eeprom.status % 2 && got[k] / 4 == d.eeprom.status / 4
  {
    hide Send, Receive;
    WriteEnableRaises(d, gap);
    var enabled := Send(d, 6, gap).value;
    ReselectListens(enabled);
    StatusIsRead(Reselect(enabled), gap', pauses);
    SecondBit(d.eeprom.status);
  }

  lemma ReselectListens(d: Devices)
    requires Ok(d) && d.bus.te && d.bus.accelPin && !d.bus.lcdDataPin && d.bus.lcdPin && d.progress == 0
    ensures At(Reselect(d), Empty, 0) && Reading(Reselect(d).bus)
    ensures Reselect(d).eeprom == d.eeprom.(phase := Empty, offset := 0)
  {
  }

  lemma SecondBit(status: u8)
    ensures var s := status as int + if status / 2 % 2 == 0 then 2 else 0;
            s / 2 % 2 == 1 && s % 2 == status % 2 && s / 4 == status / 4
  {
  }

  /** Any other first byte is ignored, and so is each of these with the other direction of the unit enabled. */
  lemma OtherCommandsAreIgnored(d: Devices, byte: u8, gap: nat)
    requires At(d, Empty, 0) && d.bus.te && byte != (if d.bus.re then 3 else 2) && byte != (if d.bus.re then 5 else 6)
    ensures Send(d, byte, gap).Ran? && Send(d, byte, gap).value.eeprom == d.eeprom
  {
    SendDelivers(d, byte, gap);
    TakenByteSetsTdre(Load(d, byte));
  }

  /** A byte sent with reception disabled while the status is being read stops the emulator. */
  lemma StatusTakesNoData(d: Devices, byte: u8, gap: nat)
    requires At(d, StatusRegister, 0) && Writing(d.bus)
    ensures Send(d, byte, gap).GaveUp?
  {
    SendDelivers(d, byte, gap);
  }
}

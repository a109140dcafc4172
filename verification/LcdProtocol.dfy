/** Drawing on the LCD through the serial unit, and reading the picture out for display. */
module LcdProtocol {
  import opened Words
  import opened Ssu

  /** Only the LCD is addressed. */
  predicate LcdOnly(b: Bus) { b.te && !b.re && b.accelPin && b.eepromPin && !b.lcdPin }

  // ---------------------------------------------------------------- reading the picture out

  function MaskOf(k: nat): (m: int)
    requires k < 8
    ensures IsMask(m)
  {
    [1, 2, 4, 8, 16, 32, 64, 128][k]
  }

  /** Where the first of the two bytes for column `x` of row `y` lies in the displayed buffer. */
  function PixelIndex(second: bool, x: nat, y: nat): nat {
    2 * x + (if second then 8 * LCD_STRIPE else 0) + y / 8 * LCD_STRIPE
  }

  function Bit(byte: u8, k: nat): nat
    requires k < 8
  {
    if Has(byte, MaskOf(k)) then 1 else 0
  }

  /** The two-bit shade of a pixel. */
  function Shade(l: Lcd, x: nat, y: nat): (r: nat)
    requires |l.memory| == LCD_SIZE && x < LCD_WIDTH && y < LCD_HEIGHT
    ensures r < 4
  {
    var at := PixelIndex(l.secondBuffer, x, y);
    2 * Bit(l.memory[at], y % 8) + Bit(l.memory[at + 1], y % 8)
  }

  const PALETTE: seq<int> := [0x00CC_CCCC, 0x0099_9999, 0x0066_6666, 0x0033_3333]

  /** The whole frame, row by row. */
  function Frame(l: Lcd): (r: seq<int>)
    requires |l.memory| == LCD_SIZE
    ensures |r| == LCD_WIDTH * LCD_HEIGHT
  {
    seq(LCD_WIDTH * LCD_HEIGHT, i requires 0 <= i < LCD_WIDTH * LCD_HEIGHT =>
      PALETTE[Shade(l, i % LCD_WIDTH, i / LCD_WIDTH)])
  }

  lemma RowAndColumn(x: nat, y: nat)
    requires x < LCD_WIDTH
    ensures (y * LCD_WIDTH + x) / LCD_WIDTH == y && (y * LCD_WIDTH + x) % LCD_WIDTH == x
  {
  }

  /** After a frame is read out the other buffer is displayed. */
  function Flip(l: Lcd): Lcd { l.(secondBuffer := !l.secondBuffer) }

  // ---------------------------------------------------------------- one byte

  lemma DataTickShifts(d: Devices)
    requires Ok(d) && LcdOnly(d.bus) && d.bus.lcdDataPin && !d.bus.tdre
    ensures Tick(d) == if ByteComplete(d) then LcdData(Shift(d)) else Ran(Shift(d))
  {
  }

  lemma ShiftingDataTicks(d: Devices, n: nat)
    requires Ok(d) && LcdOnly(d.bus) && d.bus.lcdDataPin && !d.bus.tdre && d.progress == 0 && n < SHIFT
    ensures Ticks(d, n) == Ran(Shifted(d, n))
  {
    forall k: nat | k < n
      ensures Tick(Shifted(d, k)) == Ran(Shifted(d, k + 1))
    {
      DataTickShifts(Shifted(d, k));
    }
    RepeatShifts(Tick, d, n);
  }

  lemma DataTicksDeliver(l: Devices, gap: nat)
    requires Ok(l) && LcdOnly(l.bus) && l.bus.lcdDataPin && !l.bus.tdre && l.progress == 0
    ensures Ticks(l, 7 + gap) == LcdData(l)
  {
    var n := SHIFT - 1;
    ShiftingDataTicks(l, n);
    DataTickShifts(Shifted(l, n));
    assert Shift(Shifted(l, n)) == l;
    OneMoreTick(l, n);
    assert Ticks(l, n + 1) == LcdData(l);
    TickIdles(LcdData(l).value);
    IdleTicks(l, LcdData(l).value, n + 1, gap);
  }

  predicate LcdOk(l: Lcd) { |l.memory| == LCD_SIZE && l.page < 16 && l.byte < 2 }

  /** The display is addressed between bytes. */
  predicate Addressed(d: Devices) { Ok(d) && LcdOnly(d.bus) && d.progress == 0 }

  lemma SendPaints(d: Devices, byte: u8, gap: nat)
    requires Addressed(d) && d.bus.lcdDataPin
    ensures Send(d, byte, gap).Ran?
    ensures var t := Send(d, byte, gap).value;
            && Addressed(t) && t.bus == d.bus.(sstdr := byte, tdre := true, tend := true)
            && t.lcd == Paint(d.lcd, byte) && t.eeprom == d.eeprom && t.accel == d.accel
  {
    DataTicksDeliver(Load(d, byte), gap);
    assert Send(d, byte, gap) == LcdData(Load(d, byte));
  }

  /** A command byte is taken by the first tick. */
  function SendCommand(d: Devices, command: u8, gap: nat): (r: Outcome<Devices>)
    requires Ok(d)
    ensures r.Ran? ==> Ok(r.value)
  {
    Ticks(Load(d, command), gap + 1)
  }

  lemma CommandTicks(l: Devices, gap: nat)
    requires Ok(l) && LcdOnly(l.bus) && !l.bus.lcdDataPin && !l.bus.tdre
    ensures Ticks(l, gap + 1) == TransmitToLcd(l)
  {
    hide LcdCommand;
    var n := 0;
    assert Ticks(l, n) == Ran(l);
    OneMoreTick(l, n);
    TickIdles(TransmitToLcd(l).value);
    IdleTicks(l, TransmitToLcd(l).value, n + 1, gap);
  }

  lemma SendCommandObeyed(d: Devices, command: u8, gap: nat)
    requires Addressed(d) && !d.bus.lcdDataPin
    ensures SendCommand(d, command, gap).Ran?
    ensures var t := SendCommand(d, command, gap).value;
            && Addressed(t) && t.bus == d.bus.(sstdr := command, tdre := true, tend := true)
            && t.lcd == LcdCommand(d.lcd, command) && t.eeprom == d.eeprom && t.accel == d.accel
  {
    CommandTicks(Load(d, command), gap);
    assert gap + 1 == 0 + 1 + gap;
  }

  /**
   What every command means: 0x00 to 0x0F and 0x10 to 0x17 set the two digits of the column and start over at its first
   byte, 0xB0 to 0xBF select a page, 0x81 makes the next command the contrast, and all others are ignored.
   */
  lemma CommandMeans(l: Lcd, command: u8)
    ensures var m := LcdCommand(l, command);
            && m == l.(contrast := m.contrast, readingContrast := m.readingContrast, column := m.column,
                       page := m.page, byte := m.byte)
            && m.contrast == (if l.readingContrast then command else l.contrast)
            && (m.readingContrast <==> command == 0x81 && !l.readingContrast)
            && m.page == (if !l.readingContrast && 0xB0 <= command <= 0xBF then command - 0xB0 else l.page)
            && m.column % 0x10 == (if !l.readingContrast && command <= 0x0F then command else l.column % 0x10)
            && m.column / 0x10 == (if !l.readingContrast && 0x10 <= command <= 0x17 then command - 0x10
                                   else l.column / 0x10)
            && m.byte == (if !l.readingContrast && command <= 0x17 then 0 else l.byte)
  {
    if command <= 0x0F {
      DigitsOf(l.column / 0x10, command);
    } else if command <= 0x17 {
      DigitsOf(command - 0x10, l.column % 0x10);
    }
  }

  lemma DigitsOf(high: int, low: int)
    requires 0 <= low < 0x10
    ensures (low + high * 0x10) % 0x10 == low && (low + high * 0x10) / 0x10 == high
  {
  }

  /** Three commands, in any order of the last two, select any page and any column below 128. */
  lemma ColumnSelected(l: Lcd, page: u8, column: u8)
    requires !l.readingContrast && page < 16 && column < 128
    ensures var low, high := column % 0x10, 0x10 + column / 0x10;
            var m := LcdCommand(l, 0xB0 + page as int);
            && LcdCommand(LcdCommand(m, low), high) == l.(page := page, column := column, byte := 0)
            && LcdCommand(LcdCommand(m, high), low) == l.(page := page, column := column, byte := 0)
  {
    hide LcdCommand;
    var m := LcdCommand(l, 0xB0 + page as int);
    CommandMeans(l, 0xB0 + page as int);
    CommandMeans(m, column % 0x10);
    CommandMeans(m, 0x10 + column / 0x10);
    CommandMeans(LcdCommand(m, column % 0x10), 0x10 + column / 0x10);
    CommandMeans(LcdCommand(m, 0x10 + column / 0x10), column % 0x10);
    SameDigits(column, LcdCommand(LcdCommand(m, column % 0x10), 0x10 + column / 0x10).column);
    SameDigits(column, LcdCommand(LcdCommand(m, 0x10 + column / 0x10), column % 0x10).column);
  }

  lemma SameDigits(x: int, y: int)
    ensures x / 0x10 == y / 0x10 && x % 0x10 == y % 0x10 ==> x == y
  {
  }

  // ---------------------------------------------------------------- one page

  function PaintAll(l: Lcd, data: seq<Datum>): (r: Lcd)
    requires LcdOk(l)
    ensures LcdOk(r)
  {
    if data == [] then l
    else Paint(PaintAll(l, data[..|data| - 1]), data[|data| - 1].byte)
  }

  lemma {:induction false} SendAllPaints(d: Devices, data: seq<Datum>)
    requires Addressed(d) && d.bus.lcdDataPin
    ensures SendAll(d, data).Ran?
    ensures var t := SendAll(d, data).value;
            && Addressed(t) && t.bus.lcdDataPin && (d.bus.tdre ==> t.bus.tdre)
            && t.lcd == PaintAll(d.lcd, data) && t.eeprom == d.eeprom && t.accel == d.accel
  {
    if data != [] {
      var last := |data| - 1;
      SendAllPaints(d, data[..last]);
      SendPaints(SendAll(d, data[..last]).value, data[last].byte, data[last].gap);
    }
  }

  /** Where the `n`-th byte of a stream goes: two bytes to a column, 256 columns, and then from the first again. */
  function StreamIndex(l: Lcd, n: nat): nat { l.page as int * 192 + (2 * l.column as int + l.byte as int + n) % 512 }

  /** The counters behind `n` bytes of a stream. */
  predicate CountersAfter(l: Lcd, m: Lcd, n: nat) {
    && m == l.(memory := m.memory, column := m.column, byte := m.byte) && m.byte < 2 && |m.memory| == |l.memory|
    && 2 * m.column as int + m.byte as int == (2 * l.column as int + l.byte as int + n) % 512
  }

  lemma OneFurther(l: Lcd, m: Lcd, n: nat, byte: u8)
    requires LcdOk(l) && CountersAfter(l, m, n)
    ensures StreamIndex(l, n) == LcdIndex(m) < 5632
    ensures CountersAfter(l, Paint(m, byte), n + 1) && Paint(m, byte).memory == m.memory[StreamIndex(l, n) := byte]
  {
    CounterStep(m.column, m.byte, 2 * l.column as int + l.byte as int + n);
  }

  lemma CounterStep(column: u8, byte: int, k: nat)
    requires 0 <= byte < 2 && 2 * column as int + byte == k % 512
    ensures var next := if byte == 1 then Low8(column + 1) else column;
            2 * next as int + (byte + 1) % 2 == (k + 1) % 512
  {
    assert (k + 1) % 512 == if k % 512 == 511 then 0 else k % 512 + 1;
  }

  /**
   A stream of up to 512 bytes, from any page, column and byte, leaves each byte at its place and all other bytes of the
   picture as they were.
   */
  lemma {:induction false} StreamLands(l: Lcd, data: seq<Datum>)
    requires LcdOk(l) && |data| <= 512
    ensures var m := PaintAll(l, data);
            && CountersAfter(l, m, |data|)
            && (forall i: nat :: i < |data| ==> StreamIndex(l, i) < 5632 && m.memory[StreamIndex(l, i)] == data[i].byte)
            && (forall a: nat :: a < 5632 && (forall i: nat :: i < |data| ==> StreamIndex(l, i) != a) ==>
                  m.memory[a] == l.memory[a])
  {
    hide Paint, LcdIndex;
    if data != [] {
      var last := |data| - 1;
      StreamLands(l, data[..last]);
      OneFurther(l, PaintAll(l, data[..last]), last, data[last].byte);
      forall i: nat | i < last
        ensures StreamIndex(l, i) != StreamIndex(l, last)
      {
        ApartIn512(2 * l.column as int + l.byte as int + i, last - i);
      }
    }
  }

  lemma ApartIn512(k: nat, d: nat)
    requires 0 < d < 512
    ensures k % 512 != (k + d) % 512
  {
  }

  /** The picture memory after `data` was streamed from the start of page `p`. */
  function Striped(memory: seq<u8>, p: nat, data: seq<Datum>): (r: seq<u8>)
    ensures |r| == |memory|
  {
    seq(|memory|, a requires 0 <= a < |memory| => StripedByte(memory, p, data, a))
  }

  function StripedByte(memory: seq<u8>, p: nat, data: seq<Datum>, a: nat): u8
    requires a < |memory|
  {
    if p * LCD_STRIPE <= a < p * LCD_STRIPE + |data| then data[a - p * LCD_STRIPE].byte else memory[a]
  }

  lemma StripedNext(memory: seq<u8>, p: nat, data: seq<Datum>, last: nat)
    requires |data| == last + 1 && p * LCD_STRIPE + last < |memory|
    ensures Striped(memory, p, data) == Striped(memory, p, data[..last])[p * LCD_STRIPE + last := data[last].byte]
  {
  }

  /** One byte more of a page, behind `n` bytes of it. */
  lemma PaintNext(l: Lcd, memory: seq<u8>, n: nat, byte: u8)
    requires LcdOk(l) && |memory| == LCD_SIZE && n < LCD_STRIPE
    ensures var at, next := l.page as int * LCD_STRIPE + n, n + 1;
            && LcdIndex(l.(memory := memory, column := n / 2, byte := n % 2)) == at < LCD_SIZE
            && Paint(l.(memory := memory, column := n / 2, byte := n % 2), byte)
               == l.(memory := memory[at := byte], column := next / 2, byte := next % 2)
  {
    if n % 2 == 1 {
      assert (n + 1) / 2 == n / 2 + 1;
    } else {
      assert (n + 1) / 2 == n / 2;
    }
  }

  /** Streaming from column 0 fills the page from its start, two bytes to a column. */
  lemma {:induction false} PaintAllStripes(l: Lcd, data: seq<Datum>)
    requires LcdOk(l) && l.column == 0 && l.byte == 0 && |data| <= LCD_STRIPE
    ensures PaintAll(l, data) == l.(memory := Striped(l.memory, l.page, data), column := |data| / 2, byte := |data| % 2)
  {
    if data == [] {
      assert Striped(l.memory, l.page, []) == l.memory;
    } else {
      hide Striped;
      var last := |data| - 1;
      PaintAllStripes(l, data[..last]);
      StripedNext(l.memory, l.page, data, last);
      PaintNext(l, Striped(l.memory, l.page, data[..last]), last, data[last].byte);
    }
  }

  /**
   The data of a page, and the ticks that pass behind each step of drawing it: the page command, the two column
   commands, the change of the data pin, and its change back.
   */
  datatype Stripe = Stripe(paged: nat, lowered: nat, raised: nat, pinned: nat, data: seq<Datum>, unpinned: nat)

  /** A page command and the two column commands. */
  function SelectPage(d: Devices, page: u8, s: Stripe): (r: Outcome<Devices>)
    requires Ok(d) && page < 16
    ensures r.Ran? ==> Ok(r.value)
  {
    var d1 :- SendCommand(d, 0xB0 + page as int, s.paged);
    var d2 :- SendCommand(d1, 0x00, s.lowered);
    SendCommand(d2, 0x10, s.raised)
  }

  function DataPin(d: Devices, on: bool): Devices { d.(bus := d.bus.(lcdDataPin := on)) }

  /** What the firmware does to draw one page: select it, then stream the data bytes. */
  function DrawPage(d: Devices, page: u8, s: Stripe): (r: Outcome<Devices>)
    requires Ok(d) && page < 16
    ensures r.Ran? ==> Ok(r.value)
  {
    var d1 :- SelectPage(d, page, s);
    var d2 :- Ticks(DataPin(d1, true), s.pinned);
    var d3 :- SendAll(d2, s.data);
    Ticks(DataPin(d3, false), s.unpinned)
  }

  predicate ReadyToDraw(d: Devices) { Addressed(d) && !d.bus.lcdDataPin && !d.lcd.readingContrast }

  lemma CommandsSelectPage(l: Lcd, page: u8)
    requires page < 16 && !l.readingContrast
    ensures LcdCommand(LcdCommand(LcdCommand(l, 0xB0 + page as int), 0x00), 0x10)
         == l.(page := page, column := 0, byte := 0)
  {
  }

  lemma SelectPageObeyed(d: Devices, page: u8, s: Stripe)
    requires ReadyToDraw(d) && page < 16
    ensures SelectPage(d, page, s).Ran?
    ensures var t := SelectPage(d, page, s).value;
            && Addressed(t) && !t.bus.lcdDataPin && t.bus.tdre && t.eeprom == d.eeprom && t.accel == d.accel
            && t.lcd == d.lcd.(page := page, column := 0, byte := 0)
  {
    SendCommandObeyed(d, 0xB0 + page as int, s.paged);
    var d1 := SendCommand(d, 0xB0 + page as int, s.paged).value;
    SendCommandObeyed(d1, 0x00, s.lowered);
    var d2 := SendCommand(d1, 0x00, s.lowered).value;
    SendCommandObeyed(d2, 0x10, s.raised);
    CommandsSelectPage(d.lcd, page);
  }

  /** Streaming at the start of the selected page changes exactly that page. */
  lemma StreamStripes(d: Devices, data: seq<Datum>)
    requires Addressed(d) && d.bus.lcdDataPin && d.bus.tdre && !d.lcd.readingContrast && |data| <= LCD_STRIPE
    requires d.lcd.column == 0 && d.lcd.byte == 0
    ensures SendAll(d, data).Ran?
    ensures var t := SendAll(d, data).value;
            && ReadyToDraw(DataPin(t, false)) && t.bus.tdre && t.eeprom == d.eeprom && t.accel == d.accel
            && t.lcd.memory == Striped(d.lcd.memory, d.lcd.page, data)
            && t.lcd.secondBuffer == d.lcd.secondBuffer
  {
    SendAllPaints(d, data);
    PaintAllStripes(d.lcd, data);
  }

  /** Drawing a page changes exactly that page of the picture memory. */
  lemma DrawPageStripes(d: Devices, page: u8, s: Stripe)
    requires ReadyToDraw(d) && page < 16 && |s.data| <= LCD_STRIPE
    ensures DrawPage(d, page, s).Ran?
    ensures var t := DrawPage(d, page, s).value;
            && ReadyToDraw(t) && t.eeprom == d.eeprom && t.accel == d.accel
            && t.lcd.memory == Striped(d.lcd.memory, page, s.data)
            && t.lcd.secondBuffer == d.lcd.secondBuffer
  {
    hide SelectPage, SendAll, Ticks, Striped;
    SelectPageObeyed(d, page, s);
    var d1 := DataPin(SelectPage(d, page, s).value, true);
    TicksIdle(d1, s.pinned);
    StreamStripes(d1, s.data);
    TicksIdle(DataPin(SendAll(d1, s.data).value, false), s.unpinned);
  }

  /** Streaming a page shows, at every pixel of its eight rows, exactly the two streamed bits for that pixel. */
  lemma StreamedPageIsShown(d: Devices, page: u8, s: Stripe, x: nat, y: nat)
    requires ReadyToDraw(d) && page < 16 && |s.data| == LCD_STRIPE
    requires x < LCD_WIDTH && y < LCD_HEIGHT && y / 8 == page % 8 && d.lcd.secondBuffer == (page >= 8)
    ensures DrawPage(d, page, s).Ran?
    ensures Shade(DrawPage(d, page, s).value.lcd, x, y)
         == 2 * Bit(s.data[2 * x].byte, y % 8) + Bit(s.data[2 * x + 1].byte, y % 8)
  {
    DrawPageStripes(d, page, s);
    ShadeOfStripe(d.lcd.memory, DrawPage(d, page, s).value.lcd, page, s.data, x, y);
  }

  lemma ShadeOfStripe(memory: seq<u8>, l: Lcd, page: u8, data: seq<Datum>, x: nat, y: nat)
    requires |memory| == LCD_SIZE && page < 16 && |data| == LCD_STRIPE && x < LCD_WIDTH && y < LCD_HEIGHT
    requires y / 8 == page % 8 && l.secondBuffer == (page >= 8) && l.memory == Striped(memory, page, data)
    ensures Shade(l, x, y) == 2 * Bit(data[2 * x].byte, y % 8) + Bit(data[2 * x + 1].byte, y % 8)
  {
    PixelOfPage(page, x, y);
    var at := PixelIndex(l.secondBuffer, x, y);
    assert l.memory[at] == StripedByte(memory, page, data, at);
    assert l.memory[at + 1] == StripedByte(memory, page, data, at + 1);
  }

  /** A pixel's bytes lie in the page that its row and the displayed buffer name. */
  lemma PixelOfPage(page: u8, x: nat, y: nat)
    requires page < 16 && y < LCD_HEIGHT && y / 8 == page % 8
    ensures PixelIndex(page >= 8, x, y) == page as int * LCD_STRIPE + 2 * x
  {
  }

  // ---------------------------------------------------------------- a whole picture

  /** A picture: one shade for each pixel, row by row. */
  predicate IsPicture(p: seq<nat>) {
    |p| == 96 * 64 && forall i :: 0 <= i < |p| ==> p[i] < 4
  }

  /** Shade 0 is the lightest of four evenly spaced greys. */
  function Grey(shade: nat): int { 0x00CC_CCCC - 0x0033_3333 * shade }

  /** Bit `plane` (0 the high one) of a pixel's shade. */
  function ShadeBit(p: seq<nat>, x: nat, y: nat, plane: nat): (b: nat)
    requires IsPicture(p) && x < LCD_WIDTH && y < LCD_HEIGHT
    ensures b < 2
  {
    var shade := p[y * 96 + x];
    if plane == 0 then shade / 2 else shade % 2
  }

  predicate AreBits(bits: seq<nat>) { |bits| <= 8 && forall i :: 0 <= i < |bits| ==> bits[i] < 2 }

  function Power(n: nat): nat { if n == 0 then 1 else 2 * Power(n - 1) }

  /** The number with the given bits, the lowest first. */
  function Packed(bits: seq<nat>): (r: nat)
    requires AreBits(bits)
    ensures r < Power(|bits|)
  {
    if bits == [] then 0 else bits[0] + 2 * Packed(bits[1..])
  }

  lemma PackedBit(bits: seq<nat>, k: nat)
    requires AreBits(bits) && |bits| == 8 && k < 8
    ensures Packed(bits) < 0x100 && (Has(Packed(bits), MaskOf(k)) <==> bits[k] == 1)
  {
    assert Power(8) == 0x100;
    PackedHigh(bits, k);
    LowestBit(bits[k..]);
  }

  lemma LowestBit(bits: seq<nat>)
    requires AreBits(bits) && bits != []
    ensures Packed(bits) % 2 == bits[0] && Packed(bits) / 2 == Packed(bits[1..])
  {
    OddOrEven(bits[0], Packed(bits[1..]));
  }

  lemma OddOrEven(bit: nat, half: nat)
    requires bit < 2
    ensures (bit + 2 * half) % 2 == bit && (bit + 2 * half) / 2 == half
  {
  }

  lemma {:induction false} PackedHigh(bits: seq<nat>, k: nat)
    requires AreBits(bits) && k < |bits|
    ensures Packed(bits) / MaskOf(k) == Packed(bits[k..])
  {
    if k == 0 {
      assert bits[0..] == bits;
    } else {
      PackedHigh(bits, k - 1);
      HalveAgain(Packed(bits), k);
      LowestBit(bits[k - 1..]);
      assert bits[k - 1..][1..] == bits[k..];
    }
  }

  lemma HalveAgain(v: nat, k: nat)
    requires 0 < k < 8
    ensures v / MaskOf(k) == v / MaskOf(k - 1) / 2
  {
    if k == 1 {
    } else if k == 2 {
    } else if k == 3 {
    } else if k == 4 {
    } else if k == 5 {
    } else if k == 6 {
    } else {
    }
  }

  /** The byte of plane `plane` for column `x` of stripe `q`: one bit for each of its eight rows. */
  function PlaneByte(p: seq<nat>, x: nat, q: nat, plane: nat): u8
    requires IsPicture(p) && x < LCD_WIDTH && q < 8
  {
    assert Power(8) == 0x100;
    Packed(RowBits(p, x, q, plane))
  }

  /** One plane of column `x` of stripe `q`, row by row. */
  function RowBits(p: seq<nat>, x: nat, q: nat, plane: nat): (bits: seq<nat>)
    requires IsPicture(p) && x < LCD_WIDTH && q < 8
    ensures |bits| == 8 && forall k :: 0 <= k < 8 ==> bits[k] == ShadeBit(p, x, 8 * q + k, plane)
  {
    var y := 8 * q;
    [ShadeBit(p, x, y, plane), ShadeBit(p, x, y + 1, plane), ShadeBit(p, x, y + 2, plane),
     ShadeBit(p, x, y + 3, plane), ShadeBit(p, x, y + 4, plane), ShadeBit(p, x, y + 5, plane),
     ShadeBit(p, x, y + 6, plane), ShadeBit(p, x, y + 7, plane)]
  }

  lemma PlaneByteBit(p: seq<nat>, x: nat, y: nat, plane: nat)
    requires IsPicture(p) && x < LCD_WIDTH && y < LCD_HEIGHT
    ensures Bit(PlaneByte(p, x, y / 8, plane), y % 8) == ShadeBit(p, x, y, plane)
  {
    PackedBit(RowBits(p, x, y / 8, plane), y % 8);
    assert 8 * (y / 8) + y % 8 == y;
  }

  /** The bytes that draw stripe `q`: the two planes of each column, column after column. */
  ghost predicate Draws(data: seq<Datum>, p: seq<nat>, q: nat)
    requires IsPicture(p) && q < 8
  {
    |data| == LCD_STRIPE && forall x: nat :: x < LCD_WIDTH ==> DrawsColumn(data, p, q, x)
  }

  predicate DrawsColumn(data: seq<Datum>, p: seq<nat>, q: nat, x: nat)
    requires IsPicture(p) && q < 8 && x < LCD_WIDTH && |data| == LCD_STRIPE
  {
    data[2 * x].byte == PlaneByte(p, x, q, 0) && data[2 * x + 1].byte == PlaneByte(p, x, q, 1)
  }

  /** Draws the stripes one page after the other, from page `first`. */
  function DrawPages(d: Devices, first: u8, stripes: seq<Stripe>): (r: Outcome<Devices>)
    requires Ok(d) && first + |stripes| as int <= 16
    ensures r.Ran? ==> Ok(r.value)
  {
    if stripes == [] then Ran(d)
    else
      var last := |stripes| - 1;
      var before := DrawPages(d, first, stripes[..last]);
      if before.Ran? then DrawPage(before.value, first + last as int, stripes[last]) else before
  }

  /** Pages `first` and following hold the given stripes. */
  ghost predicate Holds(memory: seq<u8>, first: u8, stripes: seq<Stripe>)
    requires |memory| == LCD_SIZE && first + |stripes| as int <= 16
    requires forall q: nat :: q < |stripes| ==> |stripes[q].data| == LCD_STRIPE
  {
    forall q: nat, i: nat :: q < |stripes| && i < LCD_STRIPE ==>
      HoldsByte(memory, first, stripes, q, i)
  }

  predicate HoldsByte(memory: seq<u8>, first: u8, stripes: seq<Stripe>, q: nat, i: nat)
    requires |memory| == LCD_SIZE && first + |stripes| as int <= 16 && q < |stripes| && i < LCD_STRIPE
    requires |stripes[q].data| == LCD_STRIPE
  {
    memory[PageByte(first, q, i)] == stripes[q].data[i].byte
  }

  function PageByte(first: u8, q: nat, i: nat): (a: nat)
    requires first + q as int < 16 && i < LCD_STRIPE
    ensures a < LCD_SIZE
  {
    (first as int + q) * LCD_STRIPE + i
  }

  lemma StripeAdded(memory: seq<u8>, first: u8, stripes: seq<Stripe>, last: nat)
    requires |memory| == LCD_SIZE && |stripes| == last + 1 && first + |stripes| as int <= 16
    requires forall q: nat :: q < |stripes| ==> |stripes[q].data| == LCD_STRIPE
    requires Holds(memory, first, stripes[..last])
    ensures Holds(Striped(memory, first as int + last, stripes[last].data), first, stripes)
  {
    var p := first as int + last;
    forall q: nat, i: nat | q < |stripes| && i < LCD_STRIPE
      ensures HoldsByte(Striped(memory, p, stripes[last].data), first, stripes, q, i)
    {
      var a := PageByte(first, q, i);
      assert Striped(memory, p, stripes[last].data)[a] == StripedByte(memory, p, stripes[last].data, a);
      if q < last {
        assert HoldsByte(memory, first, stripes[..last], q, i);
        assert a < p * LCD_STRIPE;
      }
    }
  }

  lemma {:induction false} DrawPagesHold(d: Devices, first: u8, stripes: seq<Stripe>)
    requires ReadyToDraw(d) && first + |stripes| as int <= 16
    requires forall q: nat :: q < |stripes| ==> |stripes[q].data| == LCD_STRIPE
    ensures DrawPages(d, first, stripes).Ran?
    ensures var t := DrawPages(d, first, stripes).value;
            && ReadyToDraw(t) && t.eeprom == d.eeprom && t.accel == d.accel
            && t.lcd.secondBuffer == d.lcd.secondBuffer
            && Holds(t.lcd.memory, first, stripes)
  {
    if stripes != [] {
      var last := |stripes| - 1;
      DrawPagesHold(d, first, stripes[..last]);
      var before := DrawPages(d, first, stripes[..last]).value;
      DrawPageStripes(before, first + last as int, stripes[last]);
      StripeAdded(before.lcd.memory, first, stripes, last);
    }
  }

  lemma PictureShade(l: Lcd, first: u8, stripes: seq<Stripe>, p: seq<nat>, x: nat, y: nat)
    requires LcdOk(l) && IsPicture(p) && |stripes| == 8 && first == (if l.secondBuffer then 8 else 0)
    requires forall q: nat :: q < 8 ==> |stripes[q].data| == LCD_STRIPE
    requires forall q: nat :: q < 8 ==> Draws(stripes[q].data, p, q)
    requires Holds(l.memory, first, stripes)
    requires x < LCD_WIDTH && y < LCD_HEIGHT
    ensures Shade(l, x, y) == p[y * LCD_WIDTH + x]
  {
    hide PlaneByte;
    var q := y / 8;
    assert PageByte(first, q, 2 * x) == PixelIndex(l.secondBuffer, x, y);
    assert HoldsByte(l.memory, first, stripes, q, 2 * x) && HoldsByte(l.memory, first, stripes, q, 2 * x + 1);
    assert DrawsColumn(stripes[q].data, p, q, x);
    PlaneByteBit(p, x, y, 0);
    PlaneByteBit(p, x, y, 1);
  }

  lemma FrameShowsPicture(l: Lcd, first: u8, stripes: seq<Stripe>, p: seq<nat>)
    requires LcdOk(l) && IsPicture(p) && |stripes| == 8 && first == (if l.secondBuffer then 8 else 0)
    requires forall q: nat :: q < 8 ==> |stripes[q].data| == LCD_STRIPE
    requires forall q: nat :: q < 8 ==> Draws(stripes[q].data, p, q)
    requires Holds(l.memory, first, stripes)
    ensures forall i :: 0 <= i < |p| ==> Frame(l)[i] == Grey(p[i])
  {
    forall i | 0 <= i < |p|
      ensures Frame(l)[i] == Grey(p[i])
    {
      PictureShade(l, first, stripes, p, i % LCD_WIDTH, i / LCD_WIDTH);
    }
  }

  /**
   Drawing any picture into the eight pages of the displayed buffer makes the next frame exactly that picture,
   pixel for pixel.
   */
  lemma PictureRoundTrip(d: Devices, first: u8, stripes: seq<Stripe>, p: seq<nat>)
    requires ReadyToDraw(d) && IsPicture(p) && |stripes| == 8 && first == (if d.lcd.secondBuffer then 8 else 0)
    requires forall q: nat :: q < 8 ==> Draws(stripes[q].data, p, q)
    ensures DrawPages(d, first, stripes).Ran?
    ensures Frame(DrawPages(d, first, stripes).value.lcd) == seq(|p|, i requires 0 <= i < |p| => Grey(p[i]))
  {
    assert forall q: nat :: q < 8 ==> |stripes[q].data| == LCD_STRIPE by {
      forall q: nat | q < 8
        ensures |stripes[q].data| == LCD_STRIPE
      {
        assert Draws(stripes[q].data, p, q);
      }
    }
    DrawPagesHold(d, first, stripes);
    FrameShowsPicture(DrawPages(d, first, stripes).value.lcd, first, stripes, p);
  }
}

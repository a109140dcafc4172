/** Serial transactions with the accelerometer: an address, and then one register a byte. */
module AccelProtocol {
  import opened Words
  import opened Ssu

  /** Only the accelerometer listens, and no byte is on its way. */
  predicate Selected(d: Devices) {
    && Ok(d) && d.bus.te && !d.bus.accelPin && d.bus.eepromPin && !d.bus.lcdDataPin && d.bus.lcdPin
  }

  /** The program stores a byte, and the unit ticks once and then `gap` times more. */
  function Pass(d: Devices, byte: u8, gap: nat): (r: Outcome<Devices>)
    requires Ok(d)
    ensures r.Ran? ==> Ok(r.value)
  {
    Ticks(Load(d, byte), gap + 1)
  }

  lemma FirstTick(l: Devices, gap: nat)
    requires Ok(l)
    ensures Ticks(l, 1) == Tick(l)
    ensures Tick(l).Ran? && Tick(l).value.bus.te && Tick(l).value.bus.tdre ==> Ticks(l, gap + 1) == Tick(l)
    ensures !Tick(l).Ran? ==> Ticks(l, gap + 1) == Tick(l)
  {
    var n := 0;
    assert Ticks(l, n) == Ran(l);
    OneMoreTick(l, n);
    if Tick(l).Ran? {
      if Tick(l).value.bus.te && Tick(l).value.bus.tdre {
        TickIdles(Tick(l).value);
        IdleTicks(l, Tick(l).value, n + 1, gap);
      }
    } else {
      FailureStays(l, n + 1, gap);
    }
    assert n + 1 + gap == gap + 1;
  }

  /** The first byte is the address; TDRE stays clear, so the program stores the next byte before the next tick. */
  lemma AddressTaken(d: Devices, byte: u8)
    requires Selected(d) && !d.accel.gettingBytes
    ensures Pass(d, byte, 0).Ran?
    ensures var t := Pass(d, byte, 0).value;
            && Selected(t) && t.eeprom == d.eeprom && t.lcd == d.lcd
            && t.bus == d.bus.(sstdr := byte, rdrf := true, tdre := false, tend := false)
            && t.accel == d.accel.(address := if d.bus.re then byte % 0x10 else byte, gettingBytes := true,
                                   offset := if d.bus.re then 0 else d.accel.offset)
  {
    FirstTick(Load(d, byte), 0);
  }

  /** With reception enabled every further byte fetches one register. */
  function Fetch(d: Devices, pauses: seq<Datum>): (r: Outcome<(Devices, seq<u8>)>)
    requires Ok(d)
    ensures r.Ran? ==> Ok(r.value.0)
  {
    if pauses == [] then Ran((d, []))
    else
      var last := |pauses| - 1;
      var (d', got) :- Fetch(d, pauses[..last]);
      var d'' :- Pass(d', pauses[last].byte, pauses[last].gap);
      Ran((d'', got + [d''.bus.ssrdr]))
  }

  lemma RegisterFetched(d: Devices, byte: u8, gap: nat)
    requires Selected(d) && d.bus.re && d.accel.gettingBytes
    ensures var at := d.accel.address as int + d.accel.offset as int;
            if at >= 29 then Pass(d, byte, gap).OutOfBounds?
            else
              && Pass(d, byte, gap).Ran?
              && var t := Pass(d, byte, gap).value;
                 && Selected(t) && t.eeprom == d.eeprom && t.lcd == d.lcd
                 && t.bus == d.bus.(sstdr := byte, ssrdr := d.accel.memory[at],
                                    rdrf := true, tdre := true, tend := true)
                 && t.accel == d.accel.(offset := (d.accel.offset + 1) % 0x100)
  {
    FirstTick(Load(d, byte), gap);
  }

  /**
   A read of any length stays in the device if and only if it ends before register 29. It then returns the registers
   from the low four bits of its address on, in order, and changes none.
   */
  lemma {:induction false} ReadReturnsRegisters(d: Devices, address: u8, pauses: seq<Datum>)
    requires Selected(d) && d.bus.re && !d.accel.gettingBytes
    ensures Pass(d, address, 0).Ran?
    ensures var from, r := address % 0x10, Fetch(Pass(d, address, 0).value, pauses);
            && (r.Ran? <==> from + |pauses| <= 29)
            && (!r.Ran? ==> r.OutOfBounds?)
            && (r.Ran? ==>
                  var (t, got) := r.value;
                  && got == d.accel.memory[from..from + |pauses|]
                  && Selected(t) && t.bus.re && t.eeprom == d.eeprom && t.lcd == d.lcd
                  && t.accel == Accel(d.accel.memory, from, |pauses|, true))
  {
    hide Pass;
    AddressTaken(d, address);
    if pauses != [] {
      var last := |pauses| - 1;
      ReadReturnsRegisters(d, address, pauses[..last]);
      var r := Fetch(Pass(d, address, 0).value, pauses[..last]);
      if r.Ran? {
        RegisterFetched(r.value.0, pauses[last].byte, pauses[last].gap);
      }
    }
  }

  /** With reception disabled the second byte is stored in the register, which must exist, and nothing else changes. */
  lemma WriteStoresRegister(d: Devices, address: u8, byte: u8, gap: nat)
    requires Selected(d) && !d.bus.re && !d.accel.gettingBytes
    ensures Pass(d, address, 0).Ran?
    ensures var r := Pass(Pass(d, address, 0).value, byte, gap);
            && (r.Ran? <==> address < 29)
            && (!r.Ran? ==> r.OutOfBounds?)
            && (r.Ran? ==>
                  && Selected(r.value)
                  && r.value.bus == d.bus.(sstdr := byte, rdrf := true, tdre := true, tend := true)
                  && r.value.accel == d.accel.(memory := d.accel.memory[address := byte], address := address,
                                               gettingBytes := true)
                  && r.value.eeprom == d.eeprom && r.value.lcd == d.lcd)
  {
    AddressTaken(d, address);
    FirstTick(Load(Pass(d, address, 0).value, byte), gap);
  }

  /** The program raises the select pin, some instruction completes, and it selects again to read. */
  function Reselect(d: Devices): Devices {
    var off := Cleanup(d.(bus := d.bus.(accelPin := true)));
    off.(bus := off.bus.(accelPin := false, re := true))
  }

  /**
   A register that was written is read back after a deselect if and only if the read can name it: only the low four
   bits of an address count for a read, but all of them for a write.
   */
  lemma WriteThenRead(d: Devices, address: u8, byte: u8, gap: nat, pause: Datum)
    requires Selected(d) && !d.bus.re && !d.accel.gettingBytes && address < 29
    ensures Pass(d, address, 0).Ran? && Pass(Pass(d, address, 0).value, byte, gap).Ran?
    ensures var again := Reselect(Pass(Pass(d, address, 0).value, byte, gap).value);
            && Ok(again) && Pass(again, address, 0).Ran? && Fetch(Pass(again, address, 0).value, [pause]).Ran?
            && var got := Fetch(Pass(again, address, 0).value, [pause]).value.1;
               got == [if address < 0x10 then byte else d.accel.memory[address % 0x10]]
  {
    hide Pass, Fetch;
    WriteStoresRegister(d, address, byte, gap);
    ReselectListens(Pass(Pass(d, address, 0).value, byte, gap).value);
    ReadReturnsRegisters(Reselect(Pass(Pass(d, address, 0).value, byte, gap).value), address, [pause]);
  }

  lemma ReselectListens(d: Devices)
    requires Selected(d)
    ensures Selected(Reselect(d)) && Reselect(d).bus.re
    ensures Reselect(d).accel == d.accel.(gettingBytes := false, offset := 0)
  {
  }
}

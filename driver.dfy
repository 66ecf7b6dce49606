/**
 * The IS31FL3741 session: a bus transport, the chip's fixed address and a
 * cache of the register page last selected. Every operation is proved to
 * perform its script from Protocol, stopping at the first failed transfer,
 * with the cache holding the last page it selected. The exceptions are the
 * constructor Bind and the buffer helper ScaleBuffer, which issue nothing,
 * and the raw Write, which performs a script only for data that is not a
 * page select.
 */
module Driver {
  import opened Bytes
  import opened Protocol
  import Frame

  class Is31 {
    const bus: Bus
    const address: Byte := ChipAddress
    var currentPage: Byte

    /** The session as first built: bound to the bus, cache 0. */
    constructor Bind(bus: Bus)
      ensures this.bus == bus && currentPage == 0
    {
      this.bus := bus;
      currentPage := 0;
    }

    /**
     * Binds the bus and resets the chip. The source unwraps the reset's
     * result (a panic on failure); here the status is returned.
     */
    static method New(bus: Bus) returns (dev: Is31, r: Status)
      modifies bus
      ensures fresh(dev) && dev.bus == bus
      ensures Performs(old(bus.trace), bus.trace, 0, dev.currentPage, ResetScript(0), r)
    {
      dev := new Is31.Bind(bus);
      r := dev.Reset();
    }

    /** A raw write to the chip's address. The cache is left alone, even for a page-select command. */
    method Write(data: seq<Byte>) returns (r: Status)
      modifies bus
      ensures bus.trace == old(bus.trace) + [Event(address, Transfer.Write(data), r, [])]
      ensures !IsSelect(Transfer.Write(data)) ==>
        Performs(old(bus.trace), bus.trace, currentPage, currentPage, [Transfer.Write(data)], r)
    {
      ghost var t0 := bus.trace;
      r := bus.Write(address, data);
      assert bus.trace[|t0|..] == [bus.trace[|t0|]];
      assert [bus.trace[|t0|]][1..] == [];
    }

    /** Writes data and reads buffer.Length bytes back into buffer. */
    method WriteRead(data: seq<Byte>, buffer: array<Byte>) returns (r: Status)
      modifies bus, buffer
      ensures bus.trace == old(bus.trace) + [Event(address, Transfer.WriteRead(data, buffer.Length), r, buffer[..])]
      ensures Performs(old(bus.trace), bus.trace, currentPage, currentPage, [Transfer.WriteRead(data, buffer.Length)], r)
    {
      ghost var t0 := bus.trace;
      r := bus.WriteRead(address, data, buffer);
      assert bus.trace[|t0|..] == [bus.trace[|t0|]];
      assert [bus.trace[|t0|]][1..] == [];
    }

    method Reset() returns (r: Status)
      modifies this, bus
      ensures Performs(old(bus.trace), bus.trace, old(currentPage), currentPage, ResetScript(old(currentPage)), r)
    {
      ghost var t0, p0 := bus.trace, currentPage;
      ghost var script := ResetScript(p0);
      if currentPage != ConfigPage {
        r := SetPage(ConfigPage);
        if r.Err? {
          Abort(t0, bus.trace, p0, currentPage, SetPageScript(ConfigPage), r, script);
          return;
        }
      } else {
        Nothing(t0, p0);
      }
      ghost var t1, p1 := bus.trace, currentPage;
      r := Write(ResetCommand);
      Sequence(t0, t1, bus.trace, p0, p1, currentPage, EnsurePage(p0, ConfigPage), [Transfer.Write(ResetCommand)], r);
    }

    method Unlock() returns (r: Status)
      modifies bus
      ensures Performs(old(bus.trace), bus.trace, currentPage, currentPage, [Transfer.Write(UnlockKey)], r)
    {
      r := Write(UnlockKey);
    }

    /** Unlocks and selects page; the cache takes page only if the select write succeeds. */
    method SetPage(page: Byte) returns (r: Status)
      modifies this, bus
      ensures Performs(old(bus.trace), bus.trace, old(currentPage), currentPage, SetPageScript(page), r)
    {
      ghost var t0, p0 := bus.trace, currentPage;
      r := Unlock();
      if r.Err? {
        Abort(t0, bus.trace, p0, p0, [Transfer.Write(UnlockKey)], r, SetPageScript(page));
        return;
      }
      ghost var t1 := bus.trace;
      r := bus.Write(address, SelectCommand(page));
      if r.Ok? {
        currentPage := page;
      }
      assert bus.trace[|t1|..] == [bus.trace[|t1|]];
      assert [bus.trace[|t1|]][1..] == [];
      Sequence(t0, t1, bus.trace, p0, p0, currentPage, [Transfer.Write(UnlockKey)], [Transfer.Write(SelectCommand(page))], r);
    }

    method SetGlobalVoltage(voltage: Byte) returns (r: Status)
      modifies this, bus
      ensures Performs(old(bus.trace), bus.trace, old(currentPage), currentPage,
                       SetGlobalVoltageScript(old(currentPage), voltage), r)
    {
      ghost var t0, p0 := bus.trace, currentPage;
      ghost var script := SetGlobalVoltageScript(p0, voltage);
      if currentPage != ConfigPage {
        r := SetPage(ConfigPage);
        if r.Err? {
          Abort(t0, bus.trace, p0, currentPage, SetPageScript(ConfigPage), r, script);
          return;
        }
      } else {
        Nothing(t0, p0);
      }
      ghost var t1, p1 := bus.trace, currentPage;
      r := Write([GlobalCurrentRegister, voltage]);
      Sequence(t0, t1, bus.trace, p0, p1, currentPage, EnsurePage(p0, ConfigPage),
               [Transfer.Write([GlobalCurrentRegister, voltage])], r);
    }

    /** Reads the global current register into buffer; buffer changes only if the read is issued. */
    method GetGlobalVoltage(buffer: array<Byte>) returns (r: Status)
      modifies this, bus, buffer
      ensures Performs(old(bus.trace), bus.trace, old(currentPage), currentPage,
                       GetGlobalVoltageScript(old(currentPage), buffer.Length), r)
      ensures var issued := |bus.trace| == |old(bus.trace)| + |GetGlobalVoltageScript(old(currentPage), buffer.Length)|;
        (issued ==> buffer[..] == bus.trace[|bus.trace| - 1].reply) && (!issued ==> buffer[..] == old(buffer[..]))
    {
      ghost var t0, p0 := bus.trace, currentPage;
      ghost var script := GetGlobalVoltageScript(p0, buffer.Length);
      if currentPage != ConfigPage {
        r := SetPage(ConfigPage);
        if r.Err? {
          Abort(t0, bus.trace, p0, currentPage, SetPageScript(ConfigPage), r, script);
          return;
        }
      } else {
        Nothing(t0, p0);
      }
      ghost var t1, p1 := bus.trace, currentPage;
      r := WriteRead([GlobalCurrentRegister], buffer);
      Sequence(t0, t1, bus.trace, p0, p1, currentPage, EnsurePage(p0, ConfigPage),
               [Transfer.WriteRead([GlobalCurrentRegister], buffer.Length)], r);
    }

    /**
     * Clears software shutdown: reads the configuration register and, only
     * if that read succeeds, writes it back with bit 0 set.
     */
    method SetSoftwareShutdownModeOff() returns (r: Status)
      modifies this, bus
      ensures old(bus.trace) <= bus.trace
      ensures Performs(old(bus.trace), bus.trace, old(currentPage), currentPage,
                       ShutdownOffScript(old(currentPage), FirstReply(bus.trace[|old(bus.trace)|..])), r)
      ensures var k := |old(bus.trace)| + |EnsurePage(old(currentPage), ConfigPage)|;
        k < |bus.trace| ==> bus.trace[k].request.WriteRead? && |bus.trace[k].reply| == 1
    {
      ghost var t0, p0 := bus.trace, currentPage;
      ghost var guard := EnsurePage(p0, ConfigPage);
      if currentPage != ConfigPage {
        r := SetPage(ConfigPage);
        if r.Err? {
          Abort(t0, bus.trace, p0, currentPage, SetPageScript(ConfigPage), r,
                ShutdownOffScript(p0, FirstReply(bus.trace[|t0|..])));
          return;
        }
      } else {
        Nothing(t0, p0);
      }
      ghost var t1, p1 := bus.trace, currentPage;
      var buffer := new Byte[1](_ => 0);
      r := WriteRead([ConfigurationRegister], buffer);
      ghost var t2, p2 := bus.trace, currentPage;
      ghost var read := [Transfer.WriteRead([ConfigurationRegister], 1)];
      Sequence(t0, t1, t2, p0, p1, p2, guard, read, r);
      GuardedRead(t0, t1, t2, p0, p1, ConfigPage);
      if r.Err? {
        Abort(t0, t2, p0, p2, guard + read, r, ShutdownOffScript(p0, buffer[0]));
        return;
      }
      var newValue := buffer[0] | 0x01;
      r := Write([ConfigurationRegister, newValue]);
      Sequence(t0, t2, bus.trace, p0, p2, currentPage, guard + read,
               [Transfer.Write([ConfigurationRegister, ShutdownOff(buffer[0])])], r);
      GuardedRead(t0, t1, bus.trace, p0, p1, ConfigPage);
    }

    /** Reads the configuration register into buffer; buffer changes only if the read is issued. */
    method GetSoftwareShutdownMode(buffer: array<Byte>) returns (r: Status)
      modifies this, bus, buffer
      ensures Performs(old(bus.trace), bus.trace, old(currentPage), currentPage,
                       GetShutdownScript(old(currentPage), buffer.Length), r)
      ensures var issued := |bus.trace| == |old(bus.trace)| + |GetShutdownScript(old(currentPage), buffer.Length)|;
        (issued ==> buffer[..] == bus.trace[|bus.trace| - 1].reply) && (!issued ==> buffer[..] == old(buffer[..]))
    {
      ghost var t0, p0 := bus.trace, currentPage;
      ghost var script := GetShutdownScript(p0, buffer.Length);
      if currentPage != ConfigPage {
        r := SetPage(ConfigPage);
        if r.Err? {
          Abort(t0, bus.trace, p0, currentPage, SetPageScript(ConfigPage), r, script);
          return;
        }
      } else {
        Nothing(t0, p0);
      }
      ghost var t1, p1 := bus.trace, currentPage;
      r := WriteRead([ConfigurationRegister], buffer);
      Sequence(t0, t1, bus.trace, p0, p1, currentPage, EnsurePage(p0, ConfigPage),
               [Transfer.WriteRead([ConfigurationRegister], buffer.Length)], r);
    }

    /** Writes scale to every LED of pages 2 and 3, command bytes 0; page 3 is selected without a cache check. */
    method SetAllLedScales(scale: Byte) returns (r: Status)
      modifies this, bus
      ensures Performs(old(bus.trace), bus.trace, old(currentPage), currentPage,
                       SetAllLedScalesScript(old(currentPage), scale), r)
    {
      ghost var t0, p0 := bus.trace, currentPage;
      ghost var script := SetAllLedScalesScript(p0, scale);
      ghost var step1 := EnsurePage(p0, 2);
      if currentPage != 2 {
        r := SetPage(2);
        if r.Err? {
          Abort(t0, bus.trace, p0, currentPage, step1, r, script);
          return;
        }
      } else {
        Nothing(t0, p0);
      }
      ghost var t1, p1 := bus.trace, currentPage;
      var buff := ScaleBuffer(181, scale);
      r := Write(buff[..]);
      ghost var step2 := step1 + [Transfer.Write(ScaleImage(181, scale))];
      Sequence(t0, t1, bus.trace, p0, p1, currentPage, step1, [Transfer.Write(ScaleImage(181, scale))], r);
      if r.Err? {
        Abort(t0, bus.trace, p0, currentPage, step2, r, script);
        return;
      }
      ghost var t2, p2 := bus.trace, currentPage;
      r := SetPage(3);
      ghost var step3 := step2 + SetPageScript(3);
      Sequence(t0, t2, bus.trace, p0, p2, currentPage, step2, SetPageScript(3), r);
      if r.Err? {
        Abort(t0, bus.trace, p0, currentPage, step3, r, script);
        return;
      }
      ghost var t3, p3 := bus.trace, currentPage;
      var buff2 := ScaleBuffer(178, scale);
      r := Write(buff2[..]);
      Sequence(t0, t3, bus.trace, p0, p3, currentPage, step3, [Transfer.Write(ScaleImage(178, scale))], r);
    }

    /** A fresh buffer of n bytes, every one scale but the leading command byte 0. */
    static method ScaleBuffer(n: nat, scale: Byte) returns (buff: array<Byte>)
      requires n > 0
      ensures fresh(buff) && buff[..] == ScaleImage(n, scale)
    {
      buff := new Byte[n](_ => scale);
      buff[0] := 0;
      assert buff[..] == [0] + buff[1..];
    }

    method SetLed0() returns (r: Status)
      modifies this, bus
      ensures Performs(old(bus.trace), bus.trace, old(currentPage), currentPage, SetLed0Script(old(currentPage)), r)
    {
      ghost var t0, p0 := bus.trace, currentPage;
      ghost var script := SetLed0Script(p0);
      ghost var step1 := EnsurePage(p0, 0);
      if currentPage != 0 {
        r := SetPage(0);
        if r.Err? {
          Abort(t0, bus.trace, p0, currentPage, step1, r, script);
          return;
        }
      } else {
        Nothing(t0, p0);
      }
      ghost var t1, p1 := bus.trace, currentPage;
      r := Write(EnableTest);
      ghost var step2 := step1 + [Transfer.Write(EnableTest)];
      Sequence(t0, t1, bus.trace, p0, p1, currentPage, step1, [Transfer.Write(EnableTest)], r);
      if r.Err? {
        Abort(t0, bus.trace, p0, currentPage, step2, r, script);
        return;
      }
      ghost var t2, p2 := bus.trace, currentPage;
      r := SetPage(2);
      ghost var step3 := step2 + SetPageScript(2);
      Sequence(t0, t2, bus.trace, p0, p2, currentPage, step2, SetPageScript(2), r);
      if r.Err? {
        Abort(t0, bus.trace, p0, currentPage, step3, r, script);
        return;
      }
      ghost var t3, p3 := bus.trace, currentPage;
      r := Write(EnableTest);
      Sequence(t0, t3, bus.trace, p0, p3, currentPage, step3, [Transfer.Write(EnableTest)], r);
    }

    method SetLed1() returns (r: Status)
      modifies this, bus
      ensures Performs(old(bus.trace), bus.trace, old(currentPage), currentPage, SetLed1Script(old(currentPage)), r)
    {
      ghost var t0, p0 := bus.trace, currentPage;
      ghost var script := SetLed1Script(p0);
      ghost var step1 := EnsurePage(p0, 0);
      if currentPage != 0 {
        r := SetPage(0);
        if r.Err? {
          Abort(t0, bus.trace, p0, currentPage, step1, r, script);
          return;
        }
      } else {
        Nothing(t0, p0);
      }
      ghost var t1, p1 := bus.trace, currentPage;
      r := Write(EnableAll);
      ghost var step2 := step1 + [Transfer.Write(EnableAll)];
      Sequence(t0, t1, bus.trace, p0, p1, currentPage, step1, [Transfer.Write(EnableAll)], r);
      if r.Err? {
        Abort(t0, bus.trace, p0, currentPage, step2, r, script);
        return;
      }
      ghost var t2, p2 := bus.trace, currentPage;
      r := SetPage(2);
      ghost var step3 := step2 + SetPageScript(2);
      Sequence(t0, t2, bus.trace, p0, p2, currentPage, step2, SetPageScript(2), r);
      if r.Err? {
        Abort(t0, bus.trace, p0, currentPage, step3, r, script);
        return;
      }
      ghost var t3, p3 := bus.trace, currentPage;
      r := Write(EnableAll);
      Sequence(t0, t3, bus.trace, p0, p3, currentPage, step3, [Transfer.Write(EnableAll)], r);
    }

    method SetLeds() returns (r: Status)
      modifies this, bus
      ensures Performs(old(bus.trace), bus.trace, old(currentPage), currentPage, SetLedsScript(old(currentPage)), r)
    {
      ghost var t0, p0 := bus.trace, currentPage;
      ghost var script := SetLedsScript(p0);
      ghost var done := EnsurePage(p0, 0);
      if currentPage != 0 {
        r := SetPage(0);
        if r.Err? {
          Abort(t0, bus.trace, p0, currentPage, done, r, script);
          return;
        }
      } else {
        Nothing(t0, p0);
      }
      ghost var t, p := bus.trace, currentPage;
      r := Write(EnableAll);
      Sequence(t0, t, bus.trace, p0, p, currentPage, done, [Transfer.Write(EnableAll)], r);
      done := done + [Transfer.Write(EnableAll)];
      if r.Err? {
        Abort(t0, bus.trace, p0, currentPage, done, r, script);
        return;
      }
      t, p := bus.trace, currentPage;
      r := SetPage(1);
      Sequence(t0, t, bus.trace, p0, p, currentPage, done, SetPageScript(1), r);
      done := done + SetPageScript(1);
      if r.Err? {
        Abort(t0, bus.trace, p0, currentPage, done, r, script);
        return;
      }
      t, p := bus.trace, currentPage;
      r := Write(EnableAll);
      Sequence(t0, t, bus.trace, p0, p, currentPage, done, [Transfer.Write(EnableAll)], r);
      done := done + [Transfer.Write(EnableAll)];
      if r.Err? {
        Abort(t0, bus.trace, p0, currentPage, done, r, script);
        return;
      }
      t, p := bus.trace, currentPage;
      r := SetPage(2);
      Sequence(t0, t, bus.trace, p0, p, currentPage, done, SetPageScript(2), r);
      done := done + SetPageScript(2);
      if r.Err? {
        Abort(t0, bus.trace, p0, currentPage, done, r, script);
        return;
      }
      t, p := bus.trace, currentPage;
      r := Write(EnableAll);
      Sequence(t0, t, bus.trace, p0, p, currentPage, done, [Transfer.Write(EnableAll)], r);
      done := done + [Transfer.Write(EnableAll)];
      if r.Err? {
        Abort(t0, bus.trace, p0, currentPage, done, r, script);
        return;
      }
      t, p := bus.trace, currentPage;
      r := SetPage(3);
      Sequence(t0, t, bus.trace, p0, p, currentPage, done, SetPageScript(3), r);
      done := done + SetPageScript(3);
      if r.Err? {
        Abort(t0, bus.trace, p0, currentPage, done, r, script);
        return;
      }
      t, p := bus.trace, currentPage;
      r := Write(EnableAll);
      Sequence(t0, t, bus.trace, p0, p, currentPage, done, [Transfer.Write(EnableAll)], r);
    }

    /** Uploads the frame: its first image on page 0, then, after an unconditional select of page 1, its second. */
    method WriteLedMatrix(matrix: Frame.LedMatrix) returns (r: Status)
      requires matrix.Valid()
      modifies this, bus
      ensures Performs(old(bus.trace), bus.trace, old(currentPage), currentPage,
                       WriteLedMatrixScript(old(currentPage), matrix.buffer1[..], matrix.buffer2[..]), r)
    {
      ghost var t0, p0 := bus.trace, currentPage;
      ghost var script := WriteLedMatrixScript(p0, matrix.buffer1[..], matrix.buffer2[..]);
      ghost var step1 := EnsurePage(p0, 0);
      if currentPage != 0 {
        r := SetPage(0);
        if r.Err? {
          Abort(t0, bus.trace, p0, currentPage, step1, r, script);
          return;
        }
      } else {
        Nothing(t0, p0);
      }
      ghost var t1, p1 := bus.trace, currentPage;
      r := Write(matrix.buffer1[..]);
      ghost var step2 := step1 + [Transfer.Write(matrix.buffer1[..])];
      Sequence(t0, t1, bus.trace, p0, p1, currentPage, step1, [Transfer.Write(matrix.buffer1[..])], r);
      if r.Err? {
        Abort(t0, bus.trace, p0, currentPage, step2, r, script);
        return;
      }
      ghost var t2, p2 := bus.trace, currentPage;
      r := SetPage(1);
      ghost var step3 := step2 + SetPageScript(1);
      Sequence(t0, t2, bus.trace, p0, p2, currentPage, step2, SetPageScript(1), r);
      if r.Err? {
        Abort(t0, bus.trace, p0, currentPage, step3, r, script);
        return;
      }
      ghost var t3, p3 := bus.trace, currentPage;
      r := Write(matrix.buffer2[..]);
      Sequence(t0, t3, bus.trace, p0, p3, currentPage, step3, [Transfer.Write(matrix.buffer2[..])], r);
    }
  }
}

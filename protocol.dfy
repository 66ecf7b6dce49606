/**
 * The paged-register protocol of the IS31FL3741, as seen on the bus.
 *
 * Every transfer goes to one fixed bus address. The chip's registers are
 * split into pages; a page is selected by writing the unlock key
 * (0xfe, 0xc5) and then the page-select command (0xfd, page). Each driver
 * operation is described here by its script: the list of transfers it
 * issues when every transfer succeeds, which depends on the cached page
 * the operation starts from. The driver stops at the first failed transfer,
 * so what actually reaches the bus is a prefix of the script (Transcript).
 */
module Protocol {
  import opened Bytes

  /** The controller's bus address. */
  const ChipAddress: Byte := 0x30
  /** The unlock key that must precede every page-select command. */
  const UnlockKey: seq<Byte> := [0xfe, 0xc5]
  /** The page-select register. */
  const PageSelectRegister: Byte := 0xfd
  /** Page 4 holds the configuration registers. */
  const ConfigPage: Byte := 4
  /** The software-reset command, written on the configuration page. */
  const ResetCommand: seq<Byte> := [0x3f, 0xae]
  /** Register 0 of the configuration page holds the software-shutdown bit (bit 0). */
  const ConfigurationRegister: Byte := 0x00
  /** Register 1 of the configuration page is the global current (voltage) control. */
  const GlobalCurrentRegister: Byte := 0x01
  /** The enable pattern written by set_led_1 and set_leds: register 1 and three 0xff bytes. */
  const EnableAll: seq<Byte> := [0x01, 0xff, 0xff, 0xff]
  /** The test pattern written by set_led_0: register 0 set to 0xaa. */
  const EnableTest: seq<Byte> := [0x00, 0xaa]

  function SelectCommand(page: Byte): seq<Byte> {
    [PageSelectRegister, page]
  }

  /** A request on the bus: a plain write, or a write followed by a read of readLen bytes. */
  datatype Transfer = Write(data: seq<Byte>) | WriteRead(data: seq<Byte>, readLen: nat)

  /** The bus transport's answer; the error is opaque to the driver. */
  datatype Status = Ok | Err(code: nat)

  /** One transfer as it happened: address, request, outcome and the bytes read back (none for a write). */
  datatype Event = Event(addr: Byte, request: Transfer, status: Status, reply: seq<Byte>)

  /** A page-select command. */
  predicate IsSelect(t: Transfer) {
    t.Write? && |t.data| == 2 && t.data[0] == PageSelectRegister
  }

  /** The page a successful transfer leaves the chip on, given the page before it. */
  function Selected(page: Byte, e: Event): Byte {
    if e.status.Ok? && IsSelect(e.request) then e.request.data[1] else page
  }

  /**
   * The page last selected successfully in events, or page if none was: the
   * value the driver's page cache must hold after issuing them.
   */
  function PageAfter(page: Byte, events: seq<Event>): Byte
    decreases |events|
  {
    if events == [] then page else PageAfter(Selected(page, events[0]), events[1..])
  }

  /** What a sequence of transfers returns: the status of its last transfer, Ok when there is none. */
  function Outcome(events: seq<Event>): Status {
    if events == [] then Ok else events[|events| - 1].status
  }

  /** Every transfer of events succeeded. */
  predicate AllOk(events: seq<Event>) {
    forall i :: 0 <= i < |events| ==> events[i].status.Ok?
  }

  /**
   * events is what reaches the bus when script runs and stops at the first
   * failure: the first transfer of script goes to the chip's address; if it
   * succeeds, the rest of the events are a transcript of the rest of the
   * script, and if it fails, nothing follows. An empty script issues nothing.
   */
  predicate Transcript(script: seq<Transfer>, events: seq<Event>)
    decreases |events|
  {
    if events == [] then script == []
    else
      script != [] && events[0].addr == ChipAddress && events[0].request == script[0] &&
      if events[0].status.Ok? then Transcript(script[1..], events[1..]) else |events| == 1
  }

  /**
   * The same, stated over positions: the events issue a prefix of script in
   * order, all of them but the last succeed, and a prefix shorter than the
   * script ends in a failure.
   */
  predicate StopsAtFirstFailure(script: seq<Transfer>, events: seq<Event>) {
    |events| <= |script| &&
    (forall i :: 0 <= i < |events| ==> events[i].addr == ChipAddress && events[i].request == script[i]) &&
    (forall i :: 0 <= i < |events| - 1 ==> events[i].status.Ok?) &&
    (|events| < |script| ==> |events| > 0 && events[|events| - 1].status.Err?)
  }

  /**
   * A driver operation running script turned bus trace t0 into t1 and the
   * page cache from p0 into p1, returning r: the new events form a
   * transcript of script, the cache holds the last page they selected, and
   * r is the status of the last of them.
   */
  ghost predicate Performs(t0: seq<Event>, t1: seq<Event>, p0: Byte, p1: Byte, script: seq<Transfer>, r: Status) {
    t0 <= t1 &&
    Transcript(script, t1[|t0|..]) &&
    p1 == PageAfter(p0, t1[|t0|..]) &&
    r == Outcome(t1[|t0|..])
  }

  // ---------------------------------------------------------------------------
  // Scripts of the driver operations

  /** set_page: unlock, then select, with no check of the cache. */
  function SetPageScript(page: Byte): seq<Transfer> {
    [Write(UnlockKey), Write(SelectCommand(page))]
  }

  /** The guard in front of most operations: select page only if the cache says otherwise. */
  function EnsurePage(current: Byte, page: Byte): seq<Transfer> {
    if current != page then SetPageScript(page) else []
  }

  function ResetScript(current: Byte): seq<Transfer> {
    EnsurePage(current, ConfigPage) + [Write(ResetCommand)]
  }

  function SetGlobalVoltageScript(current: Byte, voltage: Byte): seq<Transfer> {
    EnsurePage(current, ConfigPage) + [Write([GlobalCurrentRegister, voltage])]
  }

  function GetGlobalVoltageScript(current: Byte, readLen: nat): seq<Transfer> {
    EnsurePage(current, ConfigPage) + [WriteRead([GlobalCurrentRegister], readLen)]
  }

  /** The configuration byte written back by set_software_shutdown_mode_off: bit 0 set, bits 1-7 kept. */
  function ShutdownOff(reading: Byte): (v: Byte)
    ensures v & 1 == 1 && v & 0xfe == reading & 0xfe
  {
    reading | 1
  }

  function ShutdownOffScript(current: Byte, reading: Byte): seq<Transfer> {
    EnsurePage(current, ConfigPage) + [WriteRead([ConfigurationRegister], 1)]
      + [Write([ConfigurationRegister, ShutdownOff(reading)])]
  }

  function GetShutdownScript(current: Byte, readLen: nat): seq<Transfer> {
    EnsurePage(current, ConfigPage) + [WriteRead([ConfigurationRegister], readLen)]
  }

  /** A page image of n bytes: command byte 0 followed by n - 1 copies of scale. */
  function ScaleImage(n: nat, scale: Byte): (image: seq<Byte>)
    requires n > 0
    ensures |image| == n && image[0] == 0
    ensures forall i :: 1 <= i < n ==> image[i] == scale
  {
    [0] + seq(n - 1, _ => scale)
  }

  function SetAllLedScalesScript(current: Byte, scale: Byte): seq<Transfer> {
    EnsurePage(current, 2) + [Write(ScaleImage(181, scale))]
      + SetPageScript(3) + [Write(ScaleImage(178, scale))]
  }

  function SetLed0Script(current: Byte): seq<Transfer> {
    EnsurePage(current, 0) + [Write(EnableTest)] + SetPageScript(2) + [Write(EnableTest)]
  }

  function SetLed1Script(current: Byte): seq<Transfer> {
    EnsurePage(current, 0) + [Write(EnableAll)] + SetPageScript(2) + [Write(EnableAll)]
  }

  function SetLedsScript(current: Byte): seq<Transfer> {
    EnsurePage(current, 0) + [Write(EnableAll)]
      + SetPageScript(1) + [Write(EnableAll)]
      + SetPageScript(2) + [Write(EnableAll)]
      + SetPageScript(3) + [Write(EnableAll)]
  }

  function WriteLedMatrixScript(current: Byte, image1: seq<Byte>, image2: seq<Byte>): seq<Transfer> {
    EnsurePage(current, 0) + [Write(image1)] + SetPageScript(1) + [Write(image2)]
  }

  /** The first byte read back by the first write-read among events, 0 if there is none. */
  function FirstReply(events: seq<Event>): Byte
    decreases |events|
  {
    if events == [] then 0
    else if events[0].request.WriteRead? && events[0].reply != [] then events[0].reply[0]
    else FirstReply(events[1..])
  }

  /** The page a script leaves the cache on when every transfer succeeds. */
  function ScriptPage(page: Byte, script: seq<Transfer>): Byte
    decreases |script|
  {
    if script == [] then page
    else ScriptPage(if IsSelect(script[0]) then script[0].data[1] else page, script[1..])
  }

  // ---------------------------------------------------------------------------
  // Properties of transcripts and of the page cache

  /** The cache after two runs of transfers is the cache after the first, carried through the second. */
  lemma {:induction false} PageAfterAppend(page: Byte, a: seq<Event>, b: seq<Event>)
    ensures PageAfter(page, a + b) == PageAfter(PageAfter(page, a), b)
    decreases |a|
  {
    if a == [] {
      assert a + b == b;
    } else {
      assert (a + b)[0] == a[0] && (a + b)[1..] == a[1..] + b;
      PageAfterAppend(Selected(page, a[0]), a[1..], b);
    }
  }

  lemma {:induction false} ScriptPageAppend(page: Byte, a: seq<Transfer>, b: seq<Transfer>)
    ensures ScriptPage(page, a + b) == ScriptPage(ScriptPage(page, a), b)
    decreases |a|
  {
    if a == [] {
      assert a + b == b;
    } else {
      assert (a + b)[0] == a[0] && (a + b)[1..] == a[1..] + b;
      ScriptPageAppend(if IsSelect(a[0]) then a[0].data[1] else page, a[1..], b);
    }
  }

  /** The recursive and the positional descriptions of a transcript agree. */
  lemma {:induction false} TranscriptPositions(script: seq<Transfer>, events: seq<Event>)
    ensures Transcript(script, events) <==> StopsAtFirstFailure(script, events)
    decreases |events|
  {
    if events != [] && script != [] {
      TranscriptPositions(script[1..], events[1..]);
      if StopsAtFirstFailure(script, events) && events[0].status.Ok? {
        assert StopsAtFirstFailure(script[1..], events[1..]) by {
          forall i | 0 <= i < |events| - 1
            ensures events[1..][i].request == script[1..][i]
          {
            assert events[i + 1].request == script[i + 1];
          }
          forall i | 0 <= i < |events| - 2
            ensures events[1..][i].status.Ok?
          {
            assert events[i + 1].status.Ok?;
          }
        }
      }
      if Transcript(script, events) && events[0].status.Ok? {
        forall i | 0 <= i < |events|
          ensures events[i].addr == ChipAddress && events[i].request == script[i]
        {
          if i > 0 {
            assert events[i] == events[1..][i - 1];
          }
        }
        forall i | 0 <= i < |events| - 1
          ensures events[i].status.Ok?
        {
          if i > 0 {
            assert events[i] == events[1..][i - 1];
          }
        }
      }
    }
  }

  /** A transcript returns Ok only if every transfer in it succeeded. */
  lemma {:induction false} OkTranscript(script: seq<Transfer>, events: seq<Event>)
    requires Transcript(script, events) && Outcome(events) == Ok
    ensures AllOk(events) && |events| == |script|
    decreases |events|
  {
    if events != [] {
      if |events| > 1 {
        assert Outcome(events[1..]) == Outcome(events);
      }
      OkTranscript(script[1..], events[1..]);
      forall i | 1 <= i < |events|
        ensures events[i].status.Ok?
      {
        assert events[i] == events[1..][i - 1];
      }
    }
  }

  /** When every transfer of a script succeeds, the cache follows the script's own page selections. */
  lemma {:induction false} SuccessfulPage(page: Byte, script: seq<Transfer>, events: seq<Event>)
    requires Transcript(script, events) && AllOk(events)
    ensures |events| == |script|
    ensures forall i :: 0 <= i < |events| ==> events[i].request == script[i]
    ensures PageAfter(page, events) == ScriptPage(page, script)
    decreases |events|
  {
    if events != [] {
      SuccessfulPage(Selected(page, events[0]), script[1..], events[1..]);
      forall i | 1 <= i < |events|
        ensures events[i].request == script[i]
      {
        assert events[i] == events[1..][i - 1];
      }
    }
  }

  /**
   * An operation that returns Ok ran its whole script: every transfer was
   * issued and succeeded, and the cache ends on the page the script selects last.
   */
  lemma SuccessRunsWholeScript(t0: seq<Event>, t1: seq<Event>, p0: Byte, p1: Byte, script: seq<Transfer>)
    requires Performs(t0, t1, p0, p1, script, Ok)
    ensures |t1| == |t0| + |script| && AllOk(t1[|t0|..])
    ensures forall i :: 0 <= i < |script| ==> t1[|t0| + i].request == script[i]
    ensures p1 == ScriptPage(p0, script)
  {
    var e := t1[|t0|..];
    OkTranscript(script, e);
    SuccessfulPage(p0, script, e);
  }

  /** Nothing is issued after the first failed transfer, and the operation returns that failure. */
  lemma FailureStops(t0: seq<Event>, t1: seq<Event>, p0: Byte, p1: Byte, script: seq<Transfer>, r: Status, k: nat)
    requires Performs(t0, t1, p0, p1, script, r)
    requires |t0| + k < |t1| && t1[|t0| + k].status.Err?
    ensures |t1| == |t0| + k + 1 && r == t1[|t0| + k].status
  {
    var e := t1[|t0|..];
    TranscriptPositions(script, e);
    assert e[k] == t1[|t0| + k];
  }

  /** A transcript of a script that ran to completion, followed by a transcript of a second script. */
  lemma {:induction false} TranscriptAppend(c1: seq<Transfer>, e1: seq<Event>, c2: seq<Transfer>, e2: seq<Event>)
    requires Transcript(c1, e1) && AllOk(e1)
    requires Transcript(c2, e2)
    ensures Transcript(c1 + c2, e1 + e2)
    decreases |e1|
  {
    if e1 == [] {
      assert c1 + c2 == c2 && e1 + e2 == e2;
    } else {
      TranscriptAppend(c1[1..], e1[1..], c2, e2);
      assert (c1 + c2)[1..] == c1[1..] + c2;
      assert (e1 + e2)[1..] == e1[1..] + e2;
    }
  }

  /** A failed transcript of a prefix of a script is a transcript of the whole script. */
  lemma {:induction false} FailedPrefix(prefix: seq<Transfer>, events: seq<Event>, script: seq<Transfer>)
    requires Transcript(prefix, events) && Outcome(events).Err?
    requires prefix <= script
    ensures Transcript(script, events)
    decreases |events|
  {
    if events[0].status.Ok? {
      assert Outcome(events[1..]) == Outcome(events);
      FailedPrefix(prefix[1..], events[1..], script[1..]);
    }
  }

  /** The `?` operator, success case: running c1 to Ok and then c2 performs c1 + c2. */
  lemma Sequence(t0: seq<Event>, t1: seq<Event>, t2: seq<Event>, p0: Byte, p1: Byte, p2: Byte,
                 c1: seq<Transfer>, c2: seq<Transfer>, r: Status)
    requires Performs(t0, t1, p0, p1, c1, Ok)
    requires Performs(t1, t2, p1, p2, c2, r)
    ensures Performs(t0, t2, p0, p2, c1 + c2, r)
    ensures |t1| == |t0| + |c1|
  {
    var e1, e2 := t1[|t0|..], t2[|t1|..];
    assert t2[|t0|..] == e1 + e2;
    OkTranscript(c1, e1);
    TranscriptAppend(c1, e1, c2, e2);
    PageAfterAppend(p0, e1, e2);
    if e2 == [] {
      assert e1 + e2 == e1;
    } else {
      assert (e1 + e2)[|e1 + e2| - 1] == e2[|e2| - 1];
    }
  }

  /**
   * The `?` operator, failure case: once a prefix of the script fails,
   * nothing more of the script is issued and the failure is returned.
   */
  lemma Abort(t0: seq<Event>, t1: seq<Event>, p0: Byte, p1: Byte, prefix: seq<Transfer>, r: Status, script: seq<Transfer>)
    requires Performs(t0, t1, p0, p1, prefix, r) && r.Err?
    requires prefix <= script
    ensures Performs(t0, t1, p0, p1, script, r)
    ensures |t1| <= |t0| + |prefix|
  {
    FailedPrefix(prefix, t1[|t0|..], script);
    TranscriptPositions(prefix, t1[|t0|..]);
  }

  /** A run with no transfers changes nothing and succeeds. */
  lemma Nothing(t: seq<Event>, p: Byte)
    ensures Performs(t, t, p, p, [], Ok)
  {
    assert t[|t|..] == [];
  }

  /** No transfer of the script is a page-select command. */
  predicate NoSelect(script: seq<Transfer>) {
    forall i :: 0 <= i < |script| ==> !IsSelect(script[i])
  }

  lemma {:induction false} NoSelectKeepsPage(page: Byte, script: seq<Transfer>)
    requires NoSelect(script)
    ensures ScriptPage(page, script) == page
    decreases |script|
  {
    if script != [] {
      NoSelectKeepsPage(page, script[1..]);
    }
  }

  /** set_page replaces the cache only when both its writes succeed; a failed unlock stops the select. */
  lemma SetPageEffect(t0: seq<Event>, t1: seq<Event>, p0: Byte, p1: Byte, page: Byte, r: Status)
    requires Performs(t0, t1, p0, p1, SetPageScript(page), r)
    ensures r.Ok? ==> p1 == page && |t1| == |t0| + 2
    ensures r.Err? ==> p1 == p0
    ensures |t1| == |t0| + 1 ==> r.Err? && t1[|t0|].request == Write(UnlockKey)
  {
    var e := t1[|t0|..];
    var script := SetPageScript(page);
    assert !IsSelect(script[0]);
    assert e != [] && e[0].request == script[0];
    assert Selected(p0, e[0]) == p0;
    if e[0].status.Ok? {
      assert Transcript(script[1..], e[1..]);
      assert e[1..] != [];
      if e[1].status.Ok? {
        assert Transcript(script[1..][1..], e[1..][1..]);
        assert script[1..][1..] == [];
      }
      assert e[1..][1..] == [];
      assert PageAfter(p0, e) == PageAfter(p0, e[1..]) == Selected(p0, e[1]);
    } else {
      assert e[1..] == [];
      assert PageAfter(p0, e) == PageAfter(p0, e[1..]);
    }
  }

  /**
   * A guarded operation on page that returns Ok leaves the cache on page,
   * whatever it started from, so an immediately following guarded operation
   * on the same page issues no page selection.
   */
  lemma GuardedEndsOnPage(t0: seq<Event>, t1: seq<Event>, p0: Byte, p1: Byte, page: Byte, body: seq<Transfer>)
    requires Performs(t0, t1, p0, p1, EnsurePage(p0, page) + body, Ok)
    requires NoSelect(body)
    ensures p1 == page && EnsurePage(p1, page) == []
  {
    SuccessRunsWholeScript(t0, t1, p0, p1, EnsurePage(p0, page) + body);
    if p0 != page {
      SetPageScriptPage(p0, page);
    }
    ScriptPageAppend(p0, EnsurePage(p0, page), body);
    NoSelectKeepsPage(ScriptPage(p0, EnsurePage(p0, page)), body);
  }

  /**
   * Two successful set_global_voltage calls in a row issue at most one
   * unlock and select between them: the second writes only its register.
   */
  lemma ConsecutiveVoltageWrites(t0: seq<Event>, t1: seq<Event>, p0: Byte, p1: Byte, v: Byte, w: Byte)
    requires Performs(t0, t1, p0, p1, SetGlobalVoltageScript(p0, v), Ok)
    ensures SetGlobalVoltageScript(p1, w) == [Write([GlobalCurrentRegister, w])]
    ensures SetGlobalVoltageScript(p0, v) + SetGlobalVoltageScript(p1, w)
         == EnsurePage(p0, ConfigPage) + [Write([GlobalCurrentRegister, v]), Write([GlobalCurrentRegister, w])]
  {
    GuardedEndsOnPage(t0, t1, p0, p1, ConfigPage, [Write([GlobalCurrentRegister, v])]);
  }

  /**
   * Construction starts from cache 0, so its reset issues the unlock, the
   * select of page 4 and the reset command, and on success ends on page 4.
   */
  lemma ConstructionSequence(t0: seq<Event>, t1: seq<Event>, p1: Byte, r: Status)
    requires Performs(t0, t1, 0, p1, ResetScript(0), r)
    ensures ResetScript(0) == [Write([0xfe, 0xc5]), Write([0xfd, 4]), Write([0x3f, 0xae])]
    ensures r.Ok? ==> p1 == ConfigPage && |t1| == |t0| + 3
  {
    if r.Ok? {
      GuardedEndsOnPage(t0, t1, 0, p1, ConfigPage, [Write(ResetCommand)]);
      SuccessRunsWholeScript(t0, t1, 0, p1, ResetScript(0));
    }
  }

  /** The script of set_page leaves the cache on the selected page. */
  lemma SetPageScriptPage(p: Byte, page: Byte)
    ensures ScriptPage(p, SetPageScript(page)) == page
  {
    var s := SetPageScript(page);
    assert !IsSelect(s[0]) && IsSelect(s[1]);
    assert s[1..][1..] == [];
    assert ScriptPage(p, s) == ScriptPage(p, s[1..]) == ScriptPage(page, s[1..][1..]);
  }

  /** A script that ends with a select of page and one more non-select write leaves the cache on page. */
  lemma EndsAfterSelect(p: Byte, prefix: seq<Transfer>, page: Byte, last: Transfer)
    requires !IsSelect(last)
    ensures ScriptPage(p, prefix + SetPageScript(page) + [last]) == page
  {
    ScriptPageAppend(p, prefix + SetPageScript(page), [last]);
    ScriptPageAppend(p, prefix, SetPageScript(page));
    SetPageScriptPage(ScriptPage(p, prefix), page);
    assert [last][1..] == [];
  }

  /** The multi-page operations end on the last page they write: 3, 2, 2, 3 and 1. */
  lemma MultiPageEnds(p: Byte, scale: Byte, image1: seq<Byte>, image2: seq<Byte>)
    requires |image2| != 2
    ensures ScriptPage(p, SetAllLedScalesScript(p, scale)) == 3
    ensures ScriptPage(p, SetLed0Script(p)) == 2
    ensures ScriptPage(p, SetLed1Script(p)) == 2
    ensures ScriptPage(p, SetLedsScript(p)) == 3
    ensures ScriptPage(p, WriteLedMatrixScript(p, image1, image2)) == 1
  {
    EndsAfterSelect(p, EnsurePage(p, 2) + [Write(ScaleImage(181, scale))], 3, Write(ScaleImage(178, scale)));
    EndsAfterSelect(p, EnsurePage(p, 0) + [Write(EnableTest)], 2, Write(EnableTest));
    EndsAfterSelect(p, EnsurePage(p, 0) + [Write(EnableAll)], 2, Write(EnableAll));
    EndsAfterSelect(p, EnsurePage(p, 0) + [Write(EnableAll)] + SetPageScript(1) + [Write(EnableAll)]
      + SetPageScript(2) + [Write(EnableAll)], 3, Write(EnableAll));
    EndsAfterSelect(p, EnsurePage(p, 0) + [Write(image1)], 1, Write(image2));
  }

  /**
   * set_all_led_scales whose first image write fails returns that failure
   * and never selects page 3 nor writes the second image.
   */
  lemma ScalesStopAfterFailedImage(t0: seq<Event>, t1: seq<Event>, p0: Byte, p1: Byte, scale: Byte, r: Status)
    requires Performs(t0, t1, p0, p1, SetAllLedScalesScript(p0, scale), r)
    requires |t0| + |EnsurePage(p0, 2)| < |t1| && t1[|t0| + |EnsurePage(p0, 2)|].status.Err?
    ensures |t1| == |t0| + |EnsurePage(p0, 2)| + 1 && r.Err?
    ensures p1 == PageAfter(p0, t1[|t0|..|t0| + |EnsurePage(p0, 2)|])
    ensures forall i :: |t0| <= i < |t1| ==> t1[i].request != Write(ScaleImage(178, scale))
  {
    var k := |EnsurePage(p0, 2)|;
    FailureStops(t0, t1, p0, p1, SetAllLedScalesScript(p0, scale), r, k);
    var e := t1[|t0|..];
    TranscriptPositions(SetAllLedScalesScript(p0, scale), e);
    assert e == e[..k] + [e[k]];
    PageAfterAppend(p0, e[..k], [e[k]]);
    assert e[..k] == t1[|t0|..|t0| + k];
    forall i | |t0| <= i < |t1|
      ensures t1[i].request != Write(ScaleImage(178, scale))
    {
      assert t1[i] == e[i - |t0|];
    }
  }

  /** Plain writes in front of a write-read do not change which byte it reads back. */
  lemma {:induction false} FirstReplyAfterWrites(writes: seq<Event>, rest: seq<Event>)
    requires forall i :: 0 <= i < |writes| ==> writes[i].request.Write?
    ensures FirstReply(writes + rest) == FirstReply(rest)
    decreases |writes|
  {
    if writes == [] {
      assert writes + rest == rest;
    } else {
      assert (writes + rest)[0] == writes[0] && (writes + rest)[1..] == writes[1..] + rest;
      FirstReplyAfterWrites(writes[1..], rest);
    }
  }

  /**
   * After a page guard that succeeded, the first byte read back is the
   * first byte of the reply to the write-read that follows the guard.
   */
  lemma GuardedRead(t0: seq<Event>, t1: seq<Event>, t2: seq<Event>, p0: Byte, p1: Byte, page: Byte)
    requires Performs(t0, t1, p0, p1, EnsurePage(p0, page), Ok)
    requires t1 <= t2 && |t1| < |t2| && t2[|t1|].request.WriteRead? && t2[|t1|].reply != []
    ensures FirstReply(t2[|t0|..]) == t2[|t1|].reply[0]
  {
    var guard := EnsurePage(p0, page);
    SuccessRunsWholeScript(t0, t1, p0, p1, guard);
    var writes, rest := t1[|t0|..], t2[|t1|..];
    assert t2[|t0|..] == writes + rest;
    forall i | 0 <= i < |writes|
      ensures writes[i].request.Write?
    {
      assert writes[i] == t1[|t0| + i];
    }
    FirstReplyAfterWrites(writes, rest);
  }

  /** A fresh, all-zero frame is uploaded as the select of page 0, 181 zero bytes, the select of page 1 and 178 zero bytes. */
  lemma ZeroFrameUpload(current: Byte)
    requires current != 0
    ensures WriteLedMatrixScript(current, seq(181, _ => 0), seq(178, _ => 0))
         == [Write([0xfe, 0xc5]), Write([0xfd, 0]), Write(seq(181, _ => 0)),
             Write([0xfe, 0xc5]), Write([0xfd, 1]), Write(seq(178, _ => 0))]
  {
  }

  // ---------------------------------------------------------------------------
  // The bus transport

  /**
   * The I2C transport, reduced to what the driver observes: each transfer
   * may succeed or fail, a read returns arbitrary bytes, and the ghost trace
   * records every transfer in order.
   */
  class Bus {
    ghost var trace: seq<Event>

    constructor ()
      ensures trace == []
    {
      trace := [];
    }

    method Write(addr: Byte, data: seq<Byte>) returns (s: Status)
      modifies this
      ensures trace == old(trace) + [Event(addr, Transfer.Write(data), s, [])]
    {
      s :| true;
      trace := trace + [Event(addr, Transfer.Write(data), s, [])];
    }

    /** Writes data, then reads buffer.Length bytes into buffer. */
    method WriteRead(addr: Byte, data: seq<Byte>, buffer: array<Byte>) returns (s: Status)
      modifies this, buffer
      ensures trace == old(trace) + [Event(addr, Transfer.WriteRead(data, buffer.Length), s, buffer[..])]
    {
      s :| true;
      var i := 0;
      while i < buffer.Length
        invariant 0 <= i <= buffer.Length
        invariant trace == old(trace)
      {
        var v: Byte :| true;
        buffer[i] := v;
        i := i + 1;
      }
      trace := trace + [Event(addr, Transfer.WriteRead(data, buffer.Length), s, buffer[..])];
    }
  }
}

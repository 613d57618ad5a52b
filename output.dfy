/**
 * The text console output protocol wrapper (`EFI_SIMPLE_TEXT_OUTPUT_PROTOCOL`,
 * section 12.4 of the UEFI Specification).
 *
 * The firmware's entry points are foreign code. Each is modelled as a
 * function of the device's auxiliary state (`OutputData`) and the call's
 * arguments, giving the status it returns and the auxiliary state after
 * the call. A ghost log records every string passed to `output_string`
 * together with the status the firmware answered.
 */
module TextOutput {
  import opened StatusCodes
  import opened Errors
  import opened Results
  import opened Staging

  type int32 = x: int | -0x8000_0000 <= x < 0x8000_0000
  type usize = x: int | 0 <= x < 0x1_0000_0000_0000_0000

  /** `x as usize` for a 32-bit signed `x` on a 64-bit target: sign extension, so negatives wrap. */
  function UsizeFromI32(x: int32): (r: usize)
    ensures (r - x) % WORD_LIMIT == 0
  {
    if x >= 0 then x else x + WORD_LIMIT
  }

  /** The sixteen console colours; any can be a foreground, the first eight a background. */
  datatype Color =
    | Black | Blue | Green | Cyan | Red | Magenta | Brown | LightGray
    | DarkGray | LightBlue | LightGreen | LightCyan | LightRed | LightMagenta | Yellow | White

  /** The colour's number, `colour as usize`. */
  function ColorIndex(c: Color): (n: nat)
    ensures n < 16
  {
    match c
    case Black => 0
    case Blue => 1
    case Green => 2
    case Cyan => 3
    case Red => 4
    case Magenta => 5
    case Brown => 6
    case LightGray => 7
    case DarkGray => 8
    case LightBlue => 9
    case LightGreen => 10
    case LightCyan => 11
    case LightRed => 12
    case LightMagenta => 13
    case Yellow => 14
    case White => 15
  }

  /**
   * The colour as a machine word, the same number as `ColorIndex`. The table
   * is repeated in bv64 because converting the symbolic `nat` to bv64 does
   * not verify within the resource limit.
   */
  function ColorWord(c: Color): (w: bv64)
    ensures w as int == ColorIndex(c)
  {
    match c
    case Black => 0
    case Blue => 1
    case Green => 2
    case Cyan => 3
    case Red => 4
    case Magenta => 5
    case Brown => 6
    case LightGray => 7
    case DarkGray => 8
    case LightBlue => 9
    case LightGreen => 10
    case LightCyan => 11
    case LightRed => 12
    case LightMagenta => 13
    case Yellow => 14
    case White => 15
  }

  /**
   * The attribute `set_color` hands to the firmware:
   * `((bg & 0x7) << 4) | (fg & 0xF)`, foreground in bits 0-3 and background
   * in bits 4-6.
   */
  function PackAttribute(fg: Color, bg: Color): (attr: usize)
    requires ColorIndex(bg) < 8
    ensures attr == 16 * ColorIndex(bg) + ColorIndex(fg)
  {
    var fgc := ColorWord(fg);
    var bgc := ColorWord(bg);
    PackBits(fgc, bgc);
    (((bgc & 0x7) << 4) | (fgc & 0xF)) as int
  }

  /** With both fields in range, the mask-shift-or layout is the sum 16 * bg + fg. */
  lemma PackBits(fgc: bv64, bgc: bv64)
    requires fgc < 16 && bgc < 8
    ensures (((bgc & 0x7) << 4) | (fgc & 0xF)) as int == (bgc as int) * 16 + fgc as int
  {
    assert ((bgc & 0x7) << 4) | (fgc & 0xF) == bgc * 16 + fgc;
  }

  /** An attribute below 128 from which the two colours read back unchanged. */
  lemma AttributeDecodes(fg: Color, bg: Color)
    requires ColorIndex(bg) < 8
    ensures PackAttribute(fg, bg) < 128
    ensures PackAttribute(fg, bg) % 16 == ColorIndex(fg)
    ensures PackAttribute(fg, bg) / 16 == ColorIndex(bg)
  {
  }

  /** The firmware-owned auxiliary state of the device. */
  datatype OutputData = OutputData(
    maxMode: int32,        // number of modes the device supports
    mode: int32,           // current mode, or -1 when none is configured
    attribute: int32,      // current character attribute
    cursorColumn: int32,
    cursorRow: int32,
    cursorVisible: bool)

  /** A text mode: its index and its (columns, rows). */
  datatype OutputMode = OutputMode(index: usize, dims: (usize, usize)) {
    function Index(): usize {
      index
    }

    function Columns(): usize {
      dims.0
    }

    function Rows(): usize {
      dims.1
    }
  }

  /** One call of the firmware's `output_string`: the string passed and the status returned. */
  datatype WriteRecord = WriteRecord(text: CStr16, status: Status)

  type OutputStringFn = (OutputData, CStr16) -> (Status, OutputData)

  /** The calls made when a list of chunks is flushed one after another, and how they ended. */
  datatype Flushes = Flushes(records: seq<WriteRecord>, data: OutputData, ok: bool)

  /**
   * Flushes `chunks` in order, each NUL-terminated. A chunk that does not
   * form a valid string fails before any call; a call that does not answer
   * SUCCESS (warnings included) fails after it. Either way nothing further is
   * written.
   */
  function Issue(f: OutputStringFn, d: OutputData, chunks: seq<seq<uint16>>): Flushes
    decreases |chunks|
  {
    if chunks == [] then Flushes([], d, true)
    else
      var text := chunks[0] + [0];
      if !IsCStr16(text) then Flushes([], d, false)
      else
        var (st, d1) := f(d, text);
        if st != SUCCESS then Flushes([WriteRecord(text, st)], d1, false)
        else
          var rest := Issue(f, d1, chunks[1..]);
          Flushes([WriteRecord(text, st)] + rest.records, rest.data, rest.ok)
  }

  /** The units delivered by a list of calls, terminators removed. */
  function Delivered(records: seq<WriteRecord>): seq<uint16> {
    if records == [] then []
    else
      var text := records[0].text;
      text[..|text| - 1] + Delivered(records[1..])
  }

  /** Flushing one more chunk after a run that succeeded appends that chunk's calls. */
  lemma {:induction false} IssueAppend(f: OutputStringFn, d: OutputData, chunks: seq<seq<uint16>>, c: seq<uint16>)
    requires Issue(f, d, chunks).ok
    ensures var r := Issue(f, d, chunks);
            var last := Issue(f, r.data, [c]);
            Issue(f, d, chunks + [c]) == Flushes(r.records + last.records, last.data, last.ok)
    decreases |chunks|
  {
    if chunks == [] {
      assert chunks + [c] == [c];
    } else {
      assert (chunks + [c])[0] == chunks[0];
      assert (chunks + [c])[1..] == chunks[1..] + [c];
      var text := chunks[0] + [0];
      assert IsCStr16(text);
      var (st, d1) := f(d, text);
      var rest := Issue(f, d1, chunks[1..]);
      IssueAppend(f, d1, chunks[1..], c);
      var last := Issue(f, rest.data, [c]);
      var rec := WriteRecord(text, st);
      assert Issue(f, d, chunks).records == [rec] + rest.records;
      assert Issue(f, d, chunks + [c]).records == [rec] + (rest.records + last.records);
      assert [rec] + (rest.records + last.records) == ([rec] + rest.records) + last.records;
    }
  }

  /** Once a run has failed, chunks planned after it are never flushed. */
  lemma {:induction false} IssueStopsAtFailure(f: OutputStringFn, d: OutputData, chunks: seq<seq<uint16>>, plan: seq<seq<uint16>>)
    requires chunks <= plan
    requires !Issue(f, d, chunks).ok
    ensures Issue(f, d, plan) == Issue(f, d, chunks)
    decreases |chunks|
  {
    assert plan[0] == chunks[0];
    if IsCStr16(chunks[0] + [0]) {
      var (st, d1) := f(d, chunks[0] + [0]);
      if st == SUCCESS {
        assert chunks[1..] <= plan[1..];
        IssueStopsAtFailure(f, d1, chunks[1..], plan[1..]);
      }
    }
  }

  /**
   * The calls a run makes: the k-th carries the k-th chunk followed by one
   * zero, every call before the last answered SUCCESS, a run that succeeds
   * calls once per chunk with every call answering SUCCESS, and a run that
   * fails ends either with a call that did not answer SUCCESS or, before
   * calling, at a chunk that is not a valid string.
   */
  lemma {:induction false} IssueShape(f: OutputStringFn, d: OutputData, chunks: seq<seq<uint16>>)
    ensures var r := Issue(f, d, chunks);
            && |r.records| <= |chunks|
            && (forall k :: 0 <= k < |r.records| ==> r.records[k].text == chunks[k] + [0])
            && (forall k :: 0 <= k < |r.records| - 1 ==> r.records[k].status == SUCCESS)
            && (r.ok <==> |r.records| == |chunks| && forall k :: 0 <= k < |r.records| ==> r.records[k].status == SUCCESS)
            && (!r.ok ==>
                  (r.records != [] && r.records[|r.records| - 1].status != SUCCESS) ||
                  (|r.records| < |chunks| && !IsCStr16(chunks[|r.records|] + [0])))
    decreases |chunks|
  {
    if chunks != [] && IsCStr16(chunks[0] + [0]) {
      var (st, d1) := f(d, chunks[0] + [0]);
      if st == SUCCESS {
        IssueShape(f, d1, chunks[1..]);
        var rest := Issue(f, d1, chunks[1..]);
        var r := Issue(f, d, chunks);
        assert r.records == [WriteRecord(chunks[0] + [0], st)] + rest.records;
        forall k | 1 <= k < |r.records|
          ensures r.records[k] == rest.records[k - 1]
        {
        }
      }
    }
  }

  /** A run that succeeds delivers exactly the concatenation of its chunks. */
  lemma {:induction false} IssueDelivers(f: OutputStringFn, d: OutputData, chunks: seq<seq<uint16>>)
    requires Issue(f, d, chunks).ok
    ensures Delivered(Issue(f, d, chunks).records) == Flatten(chunks)
    decreases |chunks|
  {
    if chunks != [] {
      var text := chunks[0] + [0];
      var (st, d1) := f(d, text);
      IssueDelivers(f, d1, chunks[1..]);
      var records := Issue(f, d, chunks).records;
      assert records[0].text == text && records[1..] == Issue(f, d1, chunks[1..]).records;
      assert text[..|text| - 1] == chunks[0];
    }
  }

  /**
   * What a successful `write_str` puts on the screen: the input's code units
   * with each line feed preceded by a carriage return, in the input's order.
   */
  lemma WriteStrDelivers(f: OutputStringFn, d: OutputData, s: string)
    requires AllEncodable(s) && Issue(f, d, WritePlan(s)).ok
    ensures Delivered(Issue(f, d, WritePlan(s)).records) == EncodedUnits(s)
  {
    IssueDelivers(f, d, WritePlan(s));
    ChunksCover(EncodedUnits(s));
  }

  /**
   * Every call `write_str` makes carries at most BUF_SIZE units followed by
   * exactly one zero, and when it succeeds it has called once for every full
   * buffer and once more for the final flush.
   */
  lemma WriteStrCalls(f: OutputStringFn, d: OutputData, s: string)
    ensures var r := Issue(f, d, WritePlan(s));
            && (forall k :: 0 <= k < |r.records| ==>
                  |r.records[k].text| <= BUF_SIZE + 1 && r.records[k].text[|r.records[k].text| - 1] == 0)
            && (AllEncodable(s) && r.ok ==> |r.records| == |EncodedUnits(s)| / BUF_SIZE + 1)
  {
    IssueShape(f, d, WritePlan(s));
    PlanChunksFit(s);
    ChunksCover(EncodedUnits(s));
  }

  /** `output_string_lossy`'s remapping: the unknown-glyph warning is dropped, anything else is kept. */
  function SwallowUnknownGlyph(r: Result<(), ()>): (r': Result<(), ()>)
    ensures r' == (if r.Err? && r.error.status == WARN_UNKNOWN_GLYPH then Ok(()) else r)
  {
    HandleWarning(r, (e: Error<()>) => if e.status == WARN_UNKNOWN_GLYPH then Ok(()) else Err(e))
  }

  /** From a raw status: success or the unknown-glyph warning give `Ok`, every other status its own error. */
  lemma LossyOutcome(st: Status)
    ensures SwallowUnknownGlyph(Into(st)).Ok? <==> st == SUCCESS || st == WARN_UNKNOWN_GLYPH
    ensures SwallowUnknownGlyph(Into(st)).Err? ==> SwallowUnknownGlyph(Into(st)).error == FromStatus(st)
  {
  }

  /** `test_string`'s remapping of the firmware's answer. */
  function TestStringOutcome(st: Status): (r: Result<bool, ()>)
    ensures r == Ok(false) <==> st == UNSUPPORTED
    ensures r == Ok(true) <==> st == SUCCESS
    ensures r.Err? <==> st != SUCCESS && st != UNSUPPORTED
    ensures r.Err? ==> r.error == FromStatus(st)
  {
    if st == UNSUPPORTED then Ok(false) else IntoWithVal(st, true)
  }

  /**
   * The modes the iterator yields from index `from` on: every index below
   * `max` whose query succeeds, in order, with the dimensions the query gave.
   */
  function ModesFrom(o: Output, from: usize, max: usize): seq<OutputMode>
    reads o
    decreases max - from
  {
    if from >= max then []
    else
      var rest := if from + 1 < max then ModesFrom(o, from + 1, max) else [];
      match o.QueryMode(from)
      case Ok(dims) => [OutputMode(from, dims)] + rest
      case Err(_) => rest
  }

  /**
   * The enumeration yields a mode exactly for each index in [from, max) whose
   * query succeeds, paired with the queried dimensions; a failing index is
   * skipped without stopping it.
   */
  lemma {:induction false} ModesFromExactly(o: Output, from: usize, max: usize)
    ensures forall m :: m in ModesFrom(o, from, max) <==>
              from <= m.index < max && o.QueryMode(m.index) == Ok(m.dims)
    decreases max - from
  {
    if from < max {
      var rest := if from + 1 < max then ModesFrom(o, from + 1, max) else [];
      if from + 1 < max {
        ModesFromExactly(o, from + 1, max);
      }
      assert forall m :: m in rest <==> from + 1 <= m.index < max && o.QueryMode(m.index) == Ok(m.dims);
      var q := o.QueryMode(from);
      if q.Ok? {
        assert ModesFrom(o, from, max) == [OutputMode(from, q.value)] + rest;
      } else {
        assert ModesFrom(o, from, max) == rest;
      }
    }
  }

  /** The modes come in strictly ascending index order. */
  lemma {:induction false} ModesFromAscending(o: Output, from: usize, max: usize)
    ensures forall a, b :: 0 <= a < b < |ModesFrom(o, from, max)| ==>
              ModesFrom(o, from, max)[a].index < ModesFrom(o, from, max)[b].index
    decreases max - from
  {
    if from < max {
      var rest := if from + 1 < max then ModesFrom(o, from + 1, max) else [];
      if from + 1 < max {
        ModesFromAscending(o, from + 1, max);
        ModesFromExactly(o, from + 1, max);
      }
      assert forall m :: m in rest ==> from < m.index;
      var all := ModesFrom(o, from, max);
      var q := o.QueryMode(from);
      if q.Ok? {
        assert all == [OutputMode(from, q.value)] + rest;
        forall a, b | 0 <= a < b < |all|
          ensures all[a].index < all[b].index
        {
          assert all[b] == rest[b - 1];
          if a > 0 {
            assert all[a] == rest[a - 1];
          } else {
            assert all[b] in rest;
          }
        }
      } else {
        assert all == rest;
      }
    }
  }

  /**
   * A device with four modes whose mode 2 is unsupported enumerates modes
   * 0, 1 and 3, in that order.
   */
  lemma FourModesSkipUnsupported(o: Output)
    requires o.data.maxMode == 4
    requires o.queryModeFn(o.data, 0).0 == SUCCESS && o.queryModeFn(o.data, 1).0 == SUCCESS
    requires o.queryModeFn(o.data, 2).0 == UNSUPPORTED && o.queryModeFn(o.data, 3).0 == SUCCESS
    ensures var modes := ModesFrom(o, 0, UsizeFromI32(o.data.maxMode));
            |modes| == 3 && modes[0].index == 0 && modes[1].index == 1 && modes[2].index == 3
  {
    assert ModesFrom(o, 3, 4) == [OutputMode(3, o.queryModeFn(o.data, 3).1)];
    assert ModesFrom(o, 2, 4) == ModesFrom(o, 3, 4);
    assert ModesFrom(o, 1, 4) == [OutputMode(1, o.queryModeFn(o.data, 1).1)] + ModesFrom(o, 2, 4);
    assert ModesFrom(o, 0, 4) == [OutputMode(0, o.queryModeFn(o.data, 0).1)] + ModesFrom(o, 1, 4);
  }

  /** The console output protocol: the capability table and the device state it refers to. */
  class Output {
    const resetFn: (OutputData, bool) -> (Status, OutputData)
    const outputStringFn: OutputStringFn
    const testStringFn: (OutputData, CStr16) -> Status
    const queryModeFn: (OutputData, usize) -> (Status, (usize, usize))
    const setModeFn: (OutputData, usize) -> (Status, OutputData)
    const setAttributeFn: (OutputData, usize) -> (Status, OutputData)
    const clearScreenFn: OutputData -> (Status, OutputData)
    const setCursorPositionFn: (OutputData, usize, usize) -> (Status, OutputData)
    const enableCursorFn: (OutputData, bool) -> (Status, OutputData)

    /** The auxiliary state; only the firmware changes it, as a side effect of its calls. */
    var data: OutputData

    /** Every call of `output_string`, in order. */
    ghost var log: seq<WriteRecord>

    /** The protocol instance the firmware hands out. */
    constructor (
      resetFn: (OutputData, bool) -> (Status, OutputData),
      outputStringFn: OutputStringFn,
      testStringFn: (OutputData, CStr16) -> Status,
      queryModeFn: (OutputData, usize) -> (Status, (usize, usize)),
      setModeFn: (OutputData, usize) -> (Status, OutputData),
      setAttributeFn: (OutputData, usize) -> (Status, OutputData),
      clearScreenFn: OutputData -> (Status, OutputData),
      setCursorPositionFn: (OutputData, usize, usize) -> (Status, OutputData),
      enableCursorFn: (OutputData, bool) -> (Status, OutputData),
      data: OutputData)
      ensures this.resetFn == resetFn && this.outputStringFn == outputStringFn
      ensures this.testStringFn == testStringFn && this.queryModeFn == queryModeFn
      ensures this.setModeFn == setModeFn && this.setAttributeFn == setAttributeFn
      ensures this.clearScreenFn == clearScreenFn && this.setCursorPositionFn == setCursorPositionFn
      ensures this.enableCursorFn == enableCursorFn
      ensures this.data == data && log == []
    {
      this.resetFn := resetFn;
      this.outputStringFn := outputStringFn;
      this.testStringFn := testStringFn;
      this.queryModeFn := queryModeFn;
      this.setModeFn := setModeFn;
      this.setAttributeFn := setAttributeFn;
      this.clearScreenFn := clearScreenFn;
      this.setCursorPositionFn := setCursorPositionFn;
      this.enableCursorFn := enableCursorFn;
      this.data := data;
      log := [];
    }

    /** Resets the device and clears the screen. */
    method Reset(extended: bool) returns (r: Result<(), ()>)
      modifies this
      ensures var (st, d) := resetFn(old(data), extended);
              data == d && r == Into(st) && log == old(log)
    {
      var (st, d) := resetFn(data, extended);
      data := d;
      r := Into(st);
    }

    /** Clears the screen to the current background colour and homes the cursor. */
    method Clear() returns (r: Result<(), ()>)
      modifies this
      ensures var (st, d) := clearScreenFn(old(data));
              data == d && r == Into(st) && log == old(log)
    {
      var (st, d) := clearScreenFn(data);
      data := d;
      r := Into(st);
    }

    /** Writes a string; any status but SUCCESS, warnings included, is an error. */
    method OutputString(text: CStr16) returns (r: Result<(), ()>)
      modifies this
      ensures var (st, d) := outputStringFn(old(data), text);
              data == d && r == Into(st) && log == old(log) + [WriteRecord(text, st)]
    {
      var (st, d) := outputStringFn(data, text);
      data := d;
      log := log + [WriteRecord(text, st)];
      r := Into(st);
    }

    /** Writes a string, treating glyphs the device cannot render as skipped rather than as a failure. */
    method OutputStringLossy(text: CStr16) returns (r: Result<(), ()>)
      modifies this
      ensures var (st, d) := outputStringFn(old(data), text);
              data == d && log == old(log) + [WriteRecord(text, st)]
              && r == SwallowUnknownGlyph(Into(st))
    {
      var written := OutputString(text);
      r := SwallowUnknownGlyph(written);
    }

    /** Asks whether every character of the string can be rendered. */
    method TestString(text: CStr16) returns (r: Result<bool, ()>)
      ensures r == TestStringOutcome(testStringFn(data, text))
    {
      var st := testStringFn(data, text);
      if st == UNSUPPORTED {
        r := Ok(false);
      } else {
        r := IntoWithVal(st, true);
      }
    }

    /** The iterator over the supported modes, reading the mode count once. */
    method Modes() returns (it: OutputModeIter)
      ensures fresh(it)
      ensures it.output == this && it.current == 0 && it.max == UsizeFromI32(data.maxMode)
    {
      it := new OutputModeIter(this, UsizeFromI32(data.maxMode));
    }

    /** The (columns, rows) of mode `index`, or the error the firmware reported. */
    function QueryMode(index: usize): (r: Result<(usize, usize), ()>)
      reads this
      ensures r.Ok? <==> queryModeFn(data, index).0 == SUCCESS
      ensures r.Ok? ==> r.value == queryModeFn(data, index).1
      ensures r.Err? ==> r.error == FromStatus(queryModeFn(data, index).0)
    {
      var (st, dims) := queryModeFn(data, index);
      IntoWithVal(st, dims)
    }

    /** The current mode: none when the device reports -1, otherwise that mode with its queried dimensions. */
    function CurrentMode(): (r: Result<Option<OutputMode>, ()>)
      reads this
      requires data.mode >= -1
      ensures r == Ok(None) <==> data.mode == -1
      ensures data.mode >= 0 ==> (r.Ok? <==> QueryMode(data.mode).Ok?)
      ensures data.mode >= 0 && r.Ok? ==> r.value == Some(OutputMode(data.mode, QueryMode(data.mode).value))
      ensures data.mode >= 0 && r.Err? ==> r.error == QueryMode(data.mode).error
    {
      if data.mode == -1 then Ok(None)
      else
        match QueryMode(data.mode)
        case Ok(dims) => Ok(Some(OutputMode(data.mode, dims)))
        case Err(e) => Err(e)
    }

    /** Selects a mode by its index. */
    method SetMode(mode: OutputMode) returns (r: Result<(), ()>)
      modifies this
      ensures var (st, d) := setModeFn(old(data), mode.index);
              data == d && r == Into(st) && log == old(log)
    {
      var (st, d) := setModeFn(data, mode.index);
      data := d;
      r := Into(st);
    }

    function CursorVisible(): bool
      reads this
    {
      data.cursorVisible
    }

    /** Shows or hides the cursor; a device that cannot reports an error. */
    method EnableCursor(visible: bool) returns (r: Result<(), ()>)
      modifies this
      ensures var (st, d) := enableCursorFn(old(data), visible);
              data == d && r == Into(st) && log == old(log)
    {
      var (st, d) := enableCursorFn(data, visible);
      data := d;
      r := Into(st);
    }

    /** The cursor's (column, row), each converted with `as usize`. */
    function CursorPosition(): (pos: (usize, usize))
      reads this
      ensures data.cursorColumn >= 0 && data.cursorRow >= 0 ==> pos == (data.cursorColumn, data.cursorRow)
    {
      (UsizeFromI32(data.cursorColumn), UsizeFromI32(data.cursorRow))
    }

    /** Moves the cursor; the firmware, not the wrapper, rejects a position off the screen. */
    method SetCursorPosition(column: usize, row: usize) returns (r: Result<(), ()>)
      modifies this
      ensures var (st, d) := setCursorPositionFn(old(data), column, row);
              data == d && r == Into(st) && log == old(log)
    {
      var (st, d) := setCursorPositionFn(data, column, row);
      data := d;
      r := Into(st);
    }

    /**
     * Sets foreground and background colour in one attribute. A background
     * outside the first eight colours is a caller error, caught before the
     * firmware is called.
     */
    method SetColor(foreground: Color, background: Color) returns (r: Result<(), ()>)
      requires ColorIndex(background) < 8
      modifies this
      ensures var (st, d) := setAttributeFn(old(data), 16 * ColorIndex(background) + ColorIndex(foreground));
              data == d && r == Into(st) && log == old(log)
    {
      var attr := PackAttribute(foreground, background);
      var (st, d) := setAttributeFn(data, attr);
      data := d;
      r := Into(st);
    }

    // ---------------------------------------------------------------------
    // `fmt::Write::write_str`

    /** The calls made since `log0` are those of flushing `plan` from state `d0`. */
    ghost predicate Issued(d0: OutputData, log0: seq<WriteRecord>, plan: seq<seq<uint16>>)
      reads this
    {
      var r := Issue(outputStringFn, d0, plan);
      log == log0 + r.records && data == r.data
    }

    /**
     * The staging invariant after `units` were staged: the buffer holds the
     * unflushed remainder, its index stays below BUF_SIZE, and every full
     * buffer so far was flushed successfully.
     */
    ghost predicate Staged(buf: array<uint16>, i: nat, d0: OutputData, log0: seq<WriteRecord>, units: seq<uint16>)
      reads this, buf
    {
      && buf.Length == BUF_SIZE + 1
      && i < BUF_SIZE
      && i <= buf.Length && buf[..i] == Remainder(units)
      && Issued(d0, log0, FullBlocks(units))
      && Issue(outputStringFn, d0, FullBlocks(units)).ok
    }

    /** The flush closure: terminates the staged units, checks them and writes them. */
    method Flush(buf: array<uint16>, i: nat) returns (ok: bool)
      requires i < buf.Length
      modifies this, buf
      ensures var r := Issue(outputStringFn, old(data), [old(buf[..i])]);
              log == old(log) + r.records && data == r.data && ok == r.ok
    {
      buf[i] := 0;
      var codes := buf[..i + 1];
      assert codes == old(buf[..i]) + [0];
      if !IsCStr16(codes) {
        return false;
      }
      var written := OutputString(codes);
      ok := written.Ok?;
    }

    /** The `add_char` closure: stages one unit and flushes once the buffer is full. */
    method Stage(buf: array<uint16>, i: nat, u: uint16, ghost d0: OutputData, ghost log0: seq<WriteRecord>, ghost units: seq<uint16>)
      returns (i': nat, ok: bool)
      requires Staged(buf, i, d0, log0, units)
      modifies this, buf
      ensures ok ==> Staged(buf, i', d0, log0, units + [u])
      ensures !ok ==> Issued(d0, log0, FullBlocks(units + [u])) && !Issue(outputStringFn, d0, FullBlocks(units + [u])).ok
    {
      BlocksSnoc(units, u);
      buf[i] := u;
      i' := i + 1;
      assert buf[..i'] == Remainder(units) + [u];
      if i' == BUF_SIZE {
        ok := Flush(buf, i');
        i' := 0;
        IssueAppend(outputStringFn, d0, FullBlocks(units), Remainder(units) + [u]);
      } else {
        ok := true;
      }
    }

    /**
     * The `add_ch` closure for the j-th character of `s`: a line feed is
     * staged as a carriage return then the line feed itself. On failure the
     * calls made are already all the calls of `WritePlan(s)`.
     */
    method StageChar(buf: array<uint16>, i: nat, s: string, j: nat, ghost d0: OutputData, ghost log0: seq<WriteRecord>)
      returns (i': nat, ok: bool)
      requires j < |s| && AllEncodable(s[..j]) && Encodable(s[j])
      requires Staged(buf, i, d0, log0, EncodedUnits(s[..j]))
      modifies this, buf
      ensures AllEncodable(s[..j + 1])
      ensures ok ==> Staged(buf, i', d0, log0, EncodedUnits(s[..j + 1]))
      ensures !ok ==> Issued(d0, log0, WritePlan(s)) && !Issue(outputStringFn, d0, WritePlan(s)).ok
    {
      EncodedUnitsStep(s, j);
      ghost var units := EncodedUnits(s[..j]);
      var c := s[j];
      i' := i;
      if c == '\n' {
        i', ok := Stage(buf, i', CR, d0, log0, units);
        if !ok {
          PlanBeginsWithBlocks(s, units + [CR]);
          IssueStopsAtFailure(outputStringFn, d0, FullBlocks(units + [CR]), WritePlan(s));
          return;
        }
        units := units + [CR];
      }
      i', ok := Stage(buf, i', c as int as uint16, d0, log0, units);
      assert units + [c as int as uint16] == EncodedUnits(s[..j + 1]);
      if !ok {
        PlanBeginsWithBlocks(s, EncodedUnits(s[..j + 1]));
        IssueStopsAtFailure(outputStringFn, d0, FullBlocks(EncodedUnits(s[..j + 1])), WritePlan(s));
      }
    }

    /**
     * Writes text through a 128-unit staging buffer. The calls it makes are
     * exactly those of flushing `WritePlan(s)` in order, stopping at the
     * first failure; it succeeds when every character could be encoded and
     * every flush succeeded.
     */
    method WriteStr(s: string) returns (ok: bool)
      modifies this
      ensures var r := Issue(outputStringFn, old(data), WritePlan(s));
              log == old(log) + r.records && data == r.data && ok == (AllEncodable(s) && r.ok)
    {
      var buf := new uint16[BUF_SIZE + 1];
      var i: nat := 0;
      ghost var d0, log0 := data, log;
      var j := 0;
      while j < |s|
        invariant j <= |s| && AllEncodable(s[..j])
        invariant Staged(buf, i, d0, log0, EncodedUnits(s[..j]))
      {
        if !Encodable(s[j]) {
          EncodedUnitsStop(s, j);
          return false;
        }
        i, ok := StageChar(buf, i, s, j, d0, log0);
        if !ok {
          return false;
        }
        j := j + 1;
      }
      assert s[..j] == s;
      ok := Flush(buf, i);
      IssueAppend(outputStringFn, d0, FullBlocks(EncodedUnits(s)), Remainder(EncodedUnits(s)));
    }
  }

  /** An iterator over the text modes of a device. */
  class OutputModeIter {
    const output: Output
    var current: usize
    const max: usize

    constructor (output: Output, max: usize)
      ensures this.output == output && current == 0 && this.max == max
    {
      this.output := output;
      current := 0;
      this.max := max;
    }

    /**
     * The next mode whose query succeeds, skipping indices whose query
     * fails; what remains to be yielded shrinks by exactly the mode returned.
     */
    method Next() returns (m: Option<OutputMode>)
      modifies this`current
      ensures ModesFrom(output, old(current), max) ==
              (if m.Some? then [m.value] + ModesFrom(output, current, max) else [])
      ensures m.Some? ==> (old(current) <= m.value.index < max && current == m.value.index + 1
                           && output.QueryMode(m.value.index) == Ok(m.value.dims))
      ensures m.None? ==> current == if old(current) < max then max else old(current)
    {
      while current < max
        invariant old(current) <= current
        invariant old(current) < max ==> current <= max
        invariant old(current) >= max ==> current == old(current)
        invariant ModesFrom(output, old(current), max) == ModesFrom(output, current, max)
        decreases max - current
      {
        var index := current;
        current := current + 1;
        var q := output.QueryMode(index);
        if q.Ok? {
          return Some(OutputMode(index, q.value));
        }
      }
      return None;
    }
  }
}

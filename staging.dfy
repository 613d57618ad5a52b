/**
 * The code-unit stream that the console's `write_str` stages, and how a
 * stream is cut into the chunks it hands to the firmware.
 *
 * The firmware's alphabet is UCS-2: one 16-bit unit per character, so a
 * character beyond U+FFFF cannot be encoded. Each line feed is preceded by
 * a carriage return. The staging buffer holds BUF_SIZE units plus one slot
 * for the terminating zero; it is flushed the moment it is full and once
 * more, whatever it holds, at the end of the input.
 */
module Staging {

  type uint16 = x: int | 0 <= x < 0x1_0000

  const BUF_SIZE: nat := 128
  const CR: uint16 := 13
  const LF: uint16 := 10

  /**
   * A NUL-terminated UCS-2 string as the firmware receives it: the last unit
   * is zero and no other unit is.
   */
  predicate IsCStr16(s: seq<uint16>) {
    |s| >= 1 && s[|s| - 1] == 0 && forall k :: 0 <= k < |s| - 1 ==> s[k] != 0
  }

  type CStr16 = s: seq<uint16> | IsCStr16(s) witness [0]

  /** Whether a character has a single-unit UCS-2 encoding. */
  predicate Encodable(c: char) {
    c as int < 0x1_0000
  }

  predicate AllEncodable(s: string) {
    forall k :: 0 <= k < |s| ==> Encodable(s[k])
  }

  /** The units staged for one encodable character. */
  function ExpandChar(c: char): (units: seq<uint16>)
    requires Encodable(c)
    ensures |units| == (if c == '\n' then 2 else 1)
    ensures units[|units| - 1] == c as int
    ensures c == '\n' ==> units[0] == CR
  {
    if c == '\n' then [CR, LF] else [c as int as uint16]
  }

  /**
   * Every unit staged for `s`, in order: encoding stops at the first
   * character that has no UCS-2 encoding.
   */
  function EncodedUnits(s: string): seq<uint16> {
    if s == [] || !Encodable(s[0]) then [] else ExpandChar(s[0]) + EncodedUnits(s[1..])
  }

  function Flatten(blocks: seq<seq<uint16>>): seq<uint16> {
    if blocks == [] then [] else blocks[0] + Flatten(blocks[1..])
  }

  /** The full buffers flushed while `units` are staged one by one. */
  function FullBlocks(units: seq<uint16>): seq<seq<uint16>>
    decreases |units|
  {
    if |units| < BUF_SIZE then [] else [units[..BUF_SIZE]] + FullBlocks(units[BUF_SIZE..])
  }

  /** What is left in the staging buffer after `units` are staged. */
  function Remainder(units: seq<uint16>): seq<uint16>
    decreases |units|
  {
    if |units| < BUF_SIZE then units else Remainder(units[BUF_SIZE..])
  }

  /** The chunks of a stream that is staged to the end: the full buffers, then the final flush. */
  function Chunks(units: seq<uint16>): seq<seq<uint16>> {
    FullBlocks(units) + [Remainder(units)]
  }

  /**
   * The chunks `write_str` tries to flush, in order. When a character cannot
   * be encoded, the operation fails before the final flush, so only the full
   * buffers staged before that character are flushed.
   */
  function WritePlan(s: string): seq<seq<uint16>> {
    var units := EncodedUnits(s);
    if AllEncodable(s) then Chunks(units) else FullBlocks(units)
  }

  function NewlineCount(s: string): nat {
    if s == [] then 0 else (if s[0] == '\n' then 1 else 0) + NewlineCount(s[1..])
  }

  // ---------------------------------------------------------------------
  // The encoded stream

  lemma {:induction false} EncodedUnitsAppend(a: string, b: string)
    requires AllEncodable(a)
    ensures EncodedUnits(a + b) == EncodedUnits(a) + EncodedUnits(b)
  {
    if a != [] {
      assert (a + b)[0] == a[0];
      assert (a + b)[1..] == a[1..] + b;
      EncodedUnitsAppend(a[1..], b);
    } else {
      assert a + b == b;
    }
  }

  /** Staging one more encodable character appends its units. */
  lemma EncodedUnitsStep(s: string, j: nat)
    requires j < |s| && AllEncodable(s[..j]) && Encodable(s[j])
    ensures AllEncodable(s[..j + 1])
    ensures EncodedUnits(s[..j + 1]) == EncodedUnits(s[..j]) + ExpandChar(s[j])
    ensures EncodedUnits(s) == EncodedUnits(s[..j + 1]) + EncodedUnits(s[j + 1..])
  {
    var a, c, rest := s[..j], s[j], s[j + 1..];
    var a' := s[..j + 1];
    assert a' == a + [c];
    forall k | 0 <= k < j + 1
      ensures Encodable(a'[k])
    {
      if k < j {
        assert a'[k] == a[k];
      }
    }
    EncodedUnitsAppend(a, [c]);
    assert EncodedUnits([c]) == ExpandChar(c) + EncodedUnits([]) by {
      assert [c][1..] == [];
    }
    assert s == a' + rest;
    EncodedUnitsAppend(a', rest);
  }

  /** At the first character that cannot be encoded, the stream ends. */
  lemma EncodedUnitsStop(s: string, j: nat)
    requires j < |s| && AllEncodable(s[..j]) && !Encodable(s[j])
    ensures !AllEncodable(s)
    ensures EncodedUnits(s) == EncodedUnits(s[..j])
  {
    assert s == s[..j] + s[j..];
    EncodedUnitsAppend(s[..j], s[j..]);
    assert s[j..][0] == s[j];
  }

  /** A line feed is staged as a carriage return immediately followed by a line feed; the rest keeps its order. */
  lemma NewlineBecomesCrLf(a: string, b: string)
    requires AllEncodable(a)
    ensures EncodedUnits(a + "\n" + b) == EncodedUnits(a) + [CR, LF] + EncodedUnits(b)
  {
    assert a + "\n" + b == a + ("\n" + b);
    EncodedUnitsAppend(a, "\n" + b);
    assert ("\n" + b)[0] == '\n' && ("\n" + b)[1..] == b;
  }

  /** Without line feeds, every character becomes exactly its own code unit. */
  lemma {:induction false} NoNewlineIsIdentity(s: string)
    requires AllEncodable(s)
    requires forall k :: 0 <= k < |s| ==> s[k] != '\n'
    ensures |EncodedUnits(s)| == |s|
    ensures forall k :: 0 <= k < |s| ==> EncodedUnits(s)[k] == s[k] as int
  {
    if s != [] {
      NoNewlineIsIdentity(s[1..]);
      forall k | 0 <= k < |s|
        ensures EncodedUnits(s)[k] == s[k] as int
      {
        if k > 0 {
          assert EncodedUnits(s)[k] == EncodedUnits(s[1..])[k - 1];
        }
      }
    }
  }

  /** The stream has one unit per character plus one per line feed. */
  lemma {:induction false} EncodedLength(s: string)
    requires AllEncodable(s)
    ensures |EncodedUnits(s)| == |s| + NewlineCount(s)
  {
    if s != [] {
      EncodedLength(s[1..]);
    }
  }

  // ---------------------------------------------------------------------
  // Cutting the stream into chunks

  lemma {:induction false} FlattenAppend(a: seq<seq<uint16>>, b: seq<seq<uint16>>)
    ensures Flatten(a + b) == Flatten(a) + Flatten(b)
  {
    if a == [] {
      assert a + b == b;
    } else {
      assert (a + b)[1..] == a[1..] + b;
      FlattenAppend(a[1..], b);
    }
  }

  /**
   * The full buffers followed by the remainder give back the stream; every
   * full buffer holds BUF_SIZE units and the remainder fewer.
   */
  lemma {:induction false} BlocksCover(units: seq<uint16>)
    ensures Flatten(FullBlocks(units)) + Remainder(units) == units
    ensures |FullBlocks(units)| == |units| / BUF_SIZE
    ensures forall k :: 0 <= k < |FullBlocks(units)| ==> |FullBlocks(units)[k]| == BUF_SIZE
    ensures |Remainder(units)| == |units| % BUF_SIZE
    decreases |units|
  {
    if |units| >= BUF_SIZE {
      var rest := units[BUF_SIZE..];
      BlocksCover(rest);
      assert FullBlocks(units)[1..] == FullBlocks(rest);
      assert units == units[..BUF_SIZE] + rest;
    }
  }

  /** Staging one unit either leaves the full buffers alone or completes one more. */
  lemma {:induction false} BlocksSnoc(units: seq<uint16>, u: uint16)
    ensures |Remainder(units)| + 1 == BUF_SIZE ==>
      FullBlocks(units + [u]) == FullBlocks(units) + [Remainder(units) + [u]] && Remainder(units + [u]) == []
    ensures |Remainder(units)| + 1 < BUF_SIZE ==>
      FullBlocks(units + [u]) == FullBlocks(units) && Remainder(units + [u]) == Remainder(units) + [u]
    decreases |units|
  {
    if |units| >= BUF_SIZE {
      assert (units + [u])[..BUF_SIZE] == units[..BUF_SIZE];
      assert (units + [u])[BUF_SIZE..] == units[BUF_SIZE..] + [u];
      BlocksSnoc(units[BUF_SIZE..], u);
    } else if |units| + 1 == BUF_SIZE {
      assert (units + [u])[..BUF_SIZE] == units + [u];
      assert (units + [u])[BUF_SIZE..] == [];
    }
  }

  /** The full buffers of a prefix of a stream begin the full buffers of the stream. */
  lemma {:induction false} BlocksOfPrefix(u: seq<uint16>, v: seq<uint16>)
    ensures FullBlocks(u) <= FullBlocks(u + v)
    decreases |u|
  {
    if |u| >= BUF_SIZE {
      assert (u + v)[..BUF_SIZE] == u[..BUF_SIZE];
      assert (u + v)[BUF_SIZE..] == u[BUF_SIZE..] + v;
      BlocksOfPrefix(u[BUF_SIZE..], v);
    }
  }

  /**
   * The chunks a fully staged stream is flushed in: they concatenate to the
   * stream, there are |units| / BUF_SIZE + 1 of them, all but the last hold
   * exactly BUF_SIZE units, and the last one (the final flush) holds fewer,
   * none at all exactly when the stream fills whole buffers.
   */
  lemma ChunksCover(units: seq<uint16>)
    ensures Flatten(Chunks(units)) == units
    ensures |Chunks(units)| == |units| / BUF_SIZE + 1
    ensures forall k :: 0 <= k < |Chunks(units)| - 1 ==> |Chunks(units)[k]| == BUF_SIZE
    ensures |Chunks(units)[|Chunks(units)| - 1]| < BUF_SIZE
    ensures Chunks(units)[|Chunks(units)| - 1] == [] <==> |units| % BUF_SIZE == 0
  {
    BlocksCover(units);
    FlattenAppend(FullBlocks(units), [Remainder(units)]);
    assert Flatten([Remainder(units)]) == Remainder(units) by {
      assert [Remainder(units)][1..] == [];
    }
  }

  /** However far staging got, the full buffers flushed so far begin the plan. */
  lemma PlanBeginsWithBlocks(s: string, v: seq<uint16>)
    requires v <= EncodedUnits(s)
    ensures FullBlocks(v) <= WritePlan(s)
  {
    var units := EncodedUnits(s);
    assert units == v + units[|v|..];
    BlocksOfPrefix(v, units[|v|..]);
  }

  /** Every chunk in the plan fits the staging buffer. */
  lemma PlanChunksFit(s: string)
    ensures forall k :: 0 <= k < |WritePlan(s)| ==> |WritePlan(s)[k]| <= BUF_SIZE
  {
    ChunksCover(EncodedUnits(s));
    BlocksCover(EncodedUnits(s));
  }

  /**
   * Without line feeds, an input of exactly n * BUF_SIZE characters is
   * written as n full buffers followed by one empty final flush.
   */
  lemma WholeBuffersEndWithEmptyFlush(s: string, n: nat)
    requires AllEncodable(s)
    requires forall k :: 0 <= k < |s| ==> s[k] != '\n'
    requires |s| == n * BUF_SIZE
    ensures |WritePlan(s)| == n + 1
    ensures forall k :: 0 <= k < n ==> |WritePlan(s)[k]| == BUF_SIZE
    ensures WritePlan(s)[n] == []
  {
    NoNewlineIsIdentity(s);
    ChunksCover(EncodedUnits(s));
  }
}

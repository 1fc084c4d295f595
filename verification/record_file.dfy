/** The length-prefixed record file of src/database.rs (`detailed_stats.bin`):
    each record is its payload length as a little-endian `u32` followed by
    the payload. Serialisation is a parameter. */
module RecordFile {
  import opened Wrappers
  import opened Numbers

  // ---------------------------------------------------------------------
  // Length-prefixed record file
  // ---------------------------------------------------------------------

  /** One record as written by `fetch_player_data`: the payload length as
      a little-endian `u32`, then the payload. */
  function Frame(payload: seq<byte>): (f: seq<byte>)
    requires |payload| < U32_LIMIT
    ensures |f| == 4 + |payload|
  {
    U32LE(|payload|) + payload
  }

  predicate Framable(payloads: seq<seq<byte>>) {
    forall i :: 0 <= i < |payloads| ==> |payloads[i]| < U32_LIMIT
  }

  /** The file holding `payloads`, one frame after the other. */
  function Frames(payloads: seq<seq<byte>>): seq<byte>
    requires Framable(payloads)
  {
    if payloads == [] then [] else Frame(payloads[0]) + Frames(payloads[1..])
  }

  lemma {:induction false} FramesAppend(payloads: seq<seq<byte>>, p: seq<byte>)
    requires Framable(payloads) && |p| < U32_LIMIT
    ensures Framable(payloads + [p]) && Frames(payloads + [p]) == Frames(payloads) + Frame(p)
  {
    if payloads != [] {
      assert (payloads + [p])[1..] == payloads[1..] + [p];
      FramesAppend(payloads[1..], p);
    }
  }

  /** The replies whose call succeeded, in completion order; a failed
      call is only logged. */
  function Successes<T>(replies: seq<Option<T>>): (xs: seq<T>)
    ensures |xs| <= |replies|
  {
    if replies == [] then []
    else
      var last := replies[|replies| - 1];
      Successes(replies[..|replies| - 1]) + (if last.Some? then [last.value] else [])
  }

  /** The writing side of `fetch_player_data`: each successful reply is
      serialised, framed and appended; a payload of 2^32 bytes or more
      makes the `u32` conversion's `unwrap` panic. */
  method WriteRecords<T>(replies: seq<Option<T>>, encode: T -> seq<byte>) returns (file: Outcome<seq<byte>>)
    ensures Framable(Encodings(Successes(replies), encode)) ==> file == Value(Frames(Encodings(Successes(replies), encode)))
    ensures !Framable(Encodings(Successes(replies), encode)) ==> file.Panic?
  {
    var out: seq<byte> := [];
    var i := 0;
    while i < |replies|
      invariant i <= |replies|
      invariant Framable(Encodings(Successes(replies[..i]), encode))
      invariant out == Frames(Encodings(Successes(replies[..i]), encode))
    {
      SuccessesStep(replies, i, encode);
      match replies[i] {
        case None =>
        case Some(x) =>
          var payload := encode(x);
          if |payload| >= U32_LIMIT {
            OversizedStays(replies, i, encode);
            return Panic(UNWRAP_ERR);
          }
          FramesAppend(Encodings(Successes(replies[..i]), encode), payload);
          out := out + Frame(payload);
      }
      i := i + 1;
    }
    assert replies[..|replies|] == replies;
    file := Value(out);
  }

  /** The payloads written after reply `i` are those before it, followed
      by reply `i`'s own when its call succeeded. */
  lemma SuccessesStep<T>(replies: seq<Option<T>>, i: nat, encode: T -> seq<byte>)
    requires i < |replies|
    ensures replies[i].None? ==> Successes(replies[..i + 1]) == Successes(replies[..i])
    ensures replies[i].Some? ==>
              Encodings(Successes(replies[..i + 1]), encode) == Encodings(Successes(replies[..i]), encode) + [encode(replies[i].value)]
  {
    var prefix := replies[..i + 1];
    assert prefix[..i] == replies[..i] && prefix[i] == replies[i];
    if replies[i].Some? {
      EncodingsAppend(Successes(replies[..i]), replies[i].value, encode);
    } else {
      assert Successes(prefix) == Successes(replies[..i]) + [];
    }
  }

  lemma {:induction false} EncodingsAppend<T>(xs: seq<T>, x: T, encode: T -> seq<byte>)
    ensures Encodings(xs + [x], encode) == Encodings(xs, encode) + [encode(x)]
  {
    if xs != [] {
      assert (xs + [x])[1..] == xs[1..] + [x];
      EncodingsAppend(xs[1..], x, encode);
    }
  }

  /** Every successful reply's payload is among the payloads written. */
  lemma {:induction false} EncodingsHas<T>(replies: seq<Option<T>>, i: nat, encode: T -> seq<byte>)
    requires i < |replies| && replies[i].Some?
    ensures encode(replies[i].value) in Encodings(Successes(replies), encode)
  {
    var init := replies[..|replies| - 1];
    var last := replies[|replies| - 1];
    var before := Encodings(Successes(init), encode);
    var after := Encodings(Successes(replies), encode);
    if last.Some? {
      EncodingsAppend(Successes(init), last.value, encode);
      assert after == before + [encode(last.value)];
    } else {
      assert Successes(replies) == Successes(init) + [] == Successes(init);
    }
    if i == |replies| - 1 {
      assert after[|before|] == encode(last.value);
    } else {
      assert init[i] == replies[i];
      EncodingsHas(init, i, encode);
      var k :| 0 <= k < |before| && before[k] == encode(replies[i].value);
      assert after[k] == before[k];
    }
  }

  /** An oversized payload makes the whole reply sequence unframable. */
  lemma OversizedStays<T>(replies: seq<Option<T>>, i: nat, encode: T -> seq<byte>)
    requires i < |replies| && replies[i].Some? && |encode(replies[i].value)| >= U32_LIMIT
    ensures !Framable(Encodings(Successes(replies), encode))
  {
    EncodingsHas(replies, i, encode);
  }

  /** The records the reading loop of `calculate_aggregate_stats` decodes
      from `file`: it stops, without error and keeping what it read, at a
      header shorter than four bytes, a payload shorter than its header
      says, or a payload that does not decode. */
  function Decoded<T>(file: seq<byte>, decode: seq<byte> -> Option<T>): seq<T>
    decreases |file|
  {
    if |file| < 4 then []
    else
      var length := FromU32LE(file[..4]);
      if |file| - 4 < length then []
      else
        match decode(file[4..4 + length])
        case None => []
        case Some(x) => [x] + Decoded(file[4 + length..], decode)
  }

  /** One step of the reading loop at offset `pos`: a header announcing
      `length` bytes, followed by that many bytes that decode to `x`, is
      read as `x`, and reading goes on after it. */
  lemma DecodedAt<T>(file: seq<byte>, pos: nat, length: nat, x: T, decode: seq<byte> -> Option<T>)
    requires pos + 4 <= |file| && length == FromU32LE(file[pos..pos + 4]) && pos + 4 + length <= |file|
    requires decode(file[pos + 4..pos + 4 + length]) == Some(x)
    ensures Decoded(file[pos..], decode) == [x] + Decoded(file[pos + 4 + length..], decode)
  {
    var rest := file[pos..];
    assert rest[..4] == file[pos..pos + 4];
    assert rest[4..4 + length] == file[pos + 4..pos + 4 + length];
    assert rest[4 + length..] == file[pos + 4 + length..];
  }

  /** Reading stops at offset `pos` when fewer than four bytes are left,
      when the header announces `length` bytes and fewer are left, or
      when those bytes do not decode. */
  lemma DecodedStops<T>(file: seq<byte>, pos: nat, length: nat, decode: seq<byte> -> Option<T>)
    requires pos <= |file|
    requires |file| - pos < 4 ||
             (length == FromU32LE(file[pos..pos + 4]) &&
              (|file| - pos - 4 < length || decode(file[pos + 4..pos + 4 + length]).None?))
    ensures Decoded(file[pos..], decode) == []
  {
    var rest := file[pos..];
    if |rest| >= 4 {
      assert rest[..4] == file[pos..pos + 4];
      if |rest| - 4 >= length {
        assert rest[4..4 + length] == file[pos + 4..pos + 4 + length];
      }
    }
  }

  /** The payloads `fetch_player_data` writes for `records`. */
  function Encodings<T>(records: seq<T>, encode: T -> seq<byte>): (ps: seq<seq<byte>>)
    ensures |ps| == |records|
  {
    if records == [] then [] else [encode(records[0])] + Encodings(records[1..], encode)
  }

  /** One frame is read back as its record, and reading goes on after it. */
  lemma DecodeFrame<T>(p: seq<byte>, x: T, decode: seq<byte> -> Option<T>, after: seq<byte>)
    requires |p| < U32_LIMIT && decode(p) == Some(x)
    ensures Decoded(Frame(p) + after, decode) == [x] + Decoded(after, decode)
  {
    var file := Frame(p) + after;
    U32RoundTrip(|p|);
    assert file[..4] == U32LE(|p|);
    assert file[4..4 + |p|] == p;
    assert file[4 + |p|..] == after;
  }

  /** A reader that takes one well-formed frame off the front of a file. */
  ghost predicate ReadsFrames<T(!new)>(encode: T -> seq<byte>, dec: seq<byte> -> seq<T>) {
    forall x, after :: |encode(x)| < U32_LIMIT ==> dec(Frame(encode(x)) + after) == [x] + dec(after)
  }

  lemma {:induction false} ReadsAll<T(!new)>(records: seq<T>, encode: T -> seq<byte>, dec: seq<byte> -> seq<T>, rest: seq<byte>)
    requires ReadsFrames(encode, dec)
    requires Framable(Encodings(records, encode))
    ensures dec(Frames(Encodings(records, encode)) + rest) == records + dec(rest)
  {
    var payloads := Encodings(records, encode);
    if records == [] {
      assert Frames(payloads) + rest == rest;
    } else {
      var x, xs := records[0], records[1..];
      assert payloads[0] == encode(x) && payloads[1..] == Encodings(xs, encode);
      var after := Frames(Encodings(xs, encode)) + rest;
      assert Frames(payloads) + rest == Frame(encode(x)) + after;
      ReadsAll(xs, encode, dec, rest);
      assert records == [x] + xs;
    }
  }

  /** Reading a written file gives back every record, in order, when
      decoding undoes encoding; whatever follows the last frame is read
      as before. */
  lemma FramesRoundTrip<T(!new)>(records: seq<T>, encode: T -> seq<byte>, decode: seq<byte> -> Option<T>, rest: seq<byte>)
    requires forall x :: decode(encode(x)) == Some(x)
    requires Framable(Encodings(records, encode))
    ensures Decoded(Frames(Encodings(records, encode)) + rest, decode) == records + Decoded(rest, decode)
  {
    var dec := file => Decoded(file, decode);
    assert forall file :: dec(file) == Decoded(file, decode);
    forall x, after | |encode(x)| < U32_LIMIT
      ensures dec(Frame(encode(x)) + after) == [x] + dec(after)
    {
      DecodeFrame(encode(x), x, decode, after);
    }
    ReadsAll(records, encode, dec, rest);
  }

  /** A file cut short keeps the records before the cut: a trailing
      header or payload that is incomplete ends the reading quietly. */
  lemma TruncatedTail<T(!new)>(records: seq<T>, encode: T -> seq<byte>, decode: seq<byte> -> Option<T>, tail: seq<byte>)
    requires forall x :: decode(encode(x)) == Some(x)
    requires Framable(Encodings(records, encode))
    requires |tail| < 4 || FromU32LE(tail[..4]) > |tail| - 4
    ensures Decoded(Frames(Encodings(records, encode)) + tail, decode) == records
  {
    FramesRoundTrip(records, encode, decode, tail);
    assert records + [] == records;
  }
}

/** Run files: length-prefixed keys and an end marker. */
module RunFile {
  import opened ByteOrder
  import opened Integers
  import opened Results

  const EOF_MARKER: nat := 0xFFFF_FFFF

  predicate Encodable(k: Bytes) {
    |k| < EOF_MARKER
  }

  predicate AllEncodable(keys: seq<Bytes>) {
    forall k | k in keys :: Encodable(k)
  }

  /** A run file holding the keys. */
  function RunBytes(keys: seq<Bytes>): Bytes {
    if keys == [] then LeBytes(EOF_MARKER, 4) else LeBytes(|keys[0]|, 4) + keys[0] + RunBytes(keys[1..])
  }

  /** writeRunFile: a record per key, refused where a length would collide with the marker. */
  method WriteRunFile(keys: seq<Bytes>) returns (r: Result<Bytes>)
    ensures r.Ok? <==> forall i | 0 <= i < |keys| :: |keys[i]| < 4294967295
    ensures r == if AllEncodable(keys) then Ok(RunBytes(keys)) else Err(KeyTooLarge)
  {
    hide LeBytes, RunBytes, AllEncodable;
    var w: Bytes := [];
    NoRecords(keys);
    for i := 0 to |keys|
      invariant w + RunBytes(keys[i..]) == RunBytes(keys)
      invariant AllEncodable(keys[..i]) && forall j | 0 <= j < i :: |keys[j]| < EOF_MARKER
    {
      EncodableNext(keys, i);
      if |keys[i]| >= EOF_MARKER { return Err(KeyTooLarge); }
      RecordNext(w, keys, i);
      w := w + LeBytes(|keys[i]|, 4);
      w := w + keys[i];
    }
    w := w + LeBytes(EOF_MARKER, 4);
    return Ok(w);
  }

  lemma NoRecords(keys: seq<Bytes>)
    ensures keys[0..] == keys && keys[..|keys|] == keys && AllEncodable(keys[..0])
    ensures RunBytes(keys[|keys|..]) == LeBytes(EOF_MARKER, 4)
  {}

  lemma EncodableNext(keys: seq<Bytes>, i: nat)
    requires i < |keys| && AllEncodable(keys[..i])
    ensures AllEncodable(keys[..i + 1]) <==> |keys[i]| < EOF_MARKER
    ensures |keys[i]| >= EOF_MARKER ==> !AllEncodable(keys)
  {
    assert keys[..i + 1] == keys[..i] + [keys[i]];
    assert keys[..i + 1][i] == keys[i] && keys[i] in keys;
    assert Encodable(keys[i]) <==> |keys[i]| < EOF_MARKER;
  }

  lemma RecordNext(w: Bytes, keys: seq<Bytes>, i: nat)
    requires i < |keys|
    ensures w + RunBytes(keys[i..]) == w + LeBytes(|keys[i]|, 4) + keys[i] + RunBytes(keys[i + 1..])
  {
    hide LeBytes;
    assert keys[i..][1..] == keys[i + 1..];
  }

  /** A run file, byte by byte: each key behind its length in four little-endian bytes, then four bytes 255. */
  lemma RunLayout(k: Bytes, rest: seq<Bytes>)
    requires Encodable(k)
    ensures RunBytes([]) == [255, 255, 255, 255]
    ensures RunBytes([k] + rest) == LeBytes(|k|, 4) + k + RunBytes(rest) && Places(LeBytes(|k|, 4), 256, 1) == |k|
  {
    assert ([k] + rest)[1..] == rest;
    assert Pow256(4) == TWO32;
    LeRoundTrip(|k|, 4);
    FromLePlaces(LeBytes(|k|, 4), 1);
    MarkerBytes();
    hide LeBytes, Places, FromLe;
  }

  lemma MarkerBytes()
    ensures LeBytes(EOF_MARKER, 4) == [255, 255, 255, 255]
  {
    assert LeBytes(0xFF_FFFF, 3) == [255] + LeBytes(0xFFFF, 2);
  }

  /** What reading a file to its end gives: the keys, and whether it ended at the marker. */
  datatype Parsed = Parsed(keys: seq<Bytes>, clean: bool)

  function Parse(file: Bytes): Parsed {
    if |file| < 4 then Parsed([], false)
    else
      var n := FromLe(file[..4]);
      if n == EOF_MARKER then Parsed([], true)
      else if |file| < 4 + n then Parsed([], false)
      else
        var rest := Parse(file[4 + n..]);
        Parsed([file[4..4 + n]] + rest.keys, rest.clean)
  }

  lemma ParseRecord(k: Bytes, rest: Bytes)
    requires Encodable(k)
    ensures Parse(LeBytes(|k|, 4) + k + rest) == Parsed([k] + Parse(rest).keys, Parse(rest).clean)
  {
    var file, n := LeBytes(|k|, 4) + k + rest, |k|;
    assert Pow256(4) == TWO32;
    LeRoundTrip(n, 4);
    assert file[..4] == LeBytes(n, 4) && file[4..4 + n] == k && file[4 + n..] == rest;
  }

  lemma ParseMarker(rest: Bytes)
    ensures Parse(LeBytes(EOF_MARKER, 4) + rest) == Parsed([], true)
  {
    var file := LeBytes(EOF_MARKER, 4) + rest;
    assert Pow256(4) == TWO32;
    LeRoundTrip(EOF_MARKER, 4);
    assert file[..4] == LeBytes(EOF_MARKER, 4);
  }

  /** Writing then reading gives back exactly the keys, then the end: never an error. */
  lemma {:induction false} ParseWritten(keys: seq<Bytes>)
    requires AllEncodable(keys)
    ensures Parse(RunBytes(keys)) == Parsed(keys, true)
  {
    hide Parse, LeBytes, FromLe;
    if keys == [] {
      ParseMarker([]);
      assert RunBytes(keys) == LeBytes(EOF_MARKER, 4) + [];
    } else {
      ParseRecord(keys[0], RunBytes(keys[1..]));
      ParseWritten(keys[1..]);
      assert keys == [keys[0]] + keys[1..];
    }
  }

  lemma ParseShort(k: Bytes, m: nat, file: Bytes)
    requires Encodable(k) && m < 4 + |k| && 4 + |k| <= |file| && file[..4] == LeBytes(|k|, 4)
    ensures Parse(file[..m]) == Parsed([], false)
  {
    assert Pow256(4) == TWO32;
    LeRoundTrip(|k|, 4);
    if m >= 4 { assert file[..m][..4] == file[..4]; }
  }

  /** Reading any strictly truncated file gives a prefix of the keys and then an error, never the end. */
  lemma {:induction false} ParseTruncated(keys: seq<Bytes>, m: nat)
    requires AllEncodable(keys) && m < |RunBytes(keys)|
    ensures !Parse(RunBytes(keys)[..m]).clean && Parse(RunBytes(keys)[..m]).keys <= keys
  {
    var file := RunBytes(keys);
    if keys != [] {
      var k, rest := keys[0], RunBytes(keys[1..]);
      var head := LeBytes(|k|, 4) + k;
      assert file == head + rest && |head| == 4 + |k|;
      if m < |head| {
        assert file[..4] == LeBytes(|k|, 4);
        ParseShort(k, m, file);
      } else {
        hide Parse, LeBytes;
        assert file[..m] == LeBytes(|k|, 4) + k + rest[..m - |head|];
        ParseRecord(k, rest[..m - |head|]);
        ParseTruncated(keys[1..], m - |head|);
        assert keys == [k] + keys[1..];
      }
    }
  }

  /** io.ReadFull's two ways of running out of bytes. */
  datatype ReadError = AtEnd | InRecord

  class RunReader {
    var rest: Bytes
    var cur: Bytes
    var eof: bool
    var err: Option<ReadError>

    /** The keys still to come, the current one first, and whether the file then ends cleanly. */
    ghost function Left(): Parsed
      reads this
    {
      if err.Some? then Parsed([], false)
      else if eof then Parsed([], true)
      else Parsed([cur] + Parse(rest).keys, Parse(rest).clean)
    }

    constructor (file: Bytes)
      ensures Left() == Parse(file)
    {
      rest, cur, eof, err := file, [], false, None;
      new;
      Advance();
    }

    /** Moves to the next key; at the end or after an error it stays put. */
    method Advance()
      modifies this
      ensures old(eof) || old(err).Some? ==> Left() == old(Left())
      ensures !old(eof) && old(err).None? ==> Left() == Parse(old(rest))
    {
      if eof || err.Some? { return; }
      if |rest| < 4 {
        err := Some(if rest == [] then AtEnd else InRecord);
        return;
      }
      var n := FromLe(rest[..4]);
      if n == EOF_MARKER {
        eof, cur := true, [];
        return;
      }
      if |rest| < 4 + n {
        err := Some(if |rest| == 4 then AtEnd else InRecord);
        return;
      }
      cur := rest[4..4 + n];
      rest := rest[4 + n..];
    }

    /** A reader that is neither at the end nor failed shows the first key left. */
    lemma Live()
      ensures err.None? && !eof <==> Left().keys != []
      ensures Left().keys != [] ==>
        cur == Left().keys[0] && Left() == Parsed([cur] + Parse(rest).keys, Parse(rest).clean)
      ensures eof && err.None? ==> Left() == Parsed([], true)
      ensures err.Some? ==> Left() == Parsed([], false)
    {}
  }
}

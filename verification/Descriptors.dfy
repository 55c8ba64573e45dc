/** Reading spendable-output descriptors back from files.

    The encoding belongs to LDK. All that is assumed of it is that it is self-delimiting. */
module Descriptors {
  import opened Sequences
  import opened Words

  /** What one `Readable::read` at the start of some bytes yields: an error, or a descriptor and the number of
      bytes it took. */
  datatype Decoded<+D> = Malformed | Item(descriptor: D, size: nat)

  type Codec<!D> = Bytes -> Decoded<D>

  /** A descriptor takes at least one byte, and what it is does not depend on what follows it. */
  ghost predicate SelfDelimiting<D(!new)>(codec: Codec<D>) {
    forall b | codec(b).Item? :: 1 <= codec(b).size <= |b| && Stable(codec, b)
  }

  ghost predicate Stable<D(!new)>(codec: Codec<D>, b: Bytes)
    requires codec(b).Item? && codec(b).size <= |b|
  {
    forall rest: Bytes :: codec(b[..codec(b).size] + rest) == codec(b)
  }

  /** The descriptors at the start of `b`, up to the first one that does not decode. */
  ghost function DecodeAll<D(!new)>(codec: Codec<D>, b: Bytes): (r: seq<D>)
    requires SelfDelimiting(codec)
    decreases |b|
  {
    match codec(b)
    case Malformed => []
    case Item(d, size) => [d] + DecodeAll(codec, b[size..])
  }

  /** How many bytes these descriptors take. */
  ghost function Decodable<D(!new)>(codec: Codec<D>, b: Bytes): (n: nat)
    requires SelfDelimiting(codec)
    ensures n <= |b|
    decreases |b|
  {
    match codec(b)
    case Malformed => 0
    case Item(_, size) => size + Decodable(codec, b[size..])
  }

  ghost predicate WellFormed<D(!new)>(codec: Codec<D>, b: Bytes)
    requires SelfDelimiting(codec)
  {
    Decodable(codec, b) == |b|
  }

  /** The read loop of one file. A zero-length remainder ends it without another read. */
  method ReadOutputsFromFile<D(!new)>(codec: Codec<D>, file: Bytes, outputs: seq<D>) returns (r: seq<D>)
    requires SelfDelimiting(codec)
    ensures r == outputs + DecodeAll(codec, file)
  {
    r := outputs;
    var pos := 0;
    assert file[0..] == file;
    while pos < |file|
      invariant 0 <= pos <= |file|
      invariant r + DecodeAll(codec, file[pos..]) == outputs + DecodeAll(codec, file)
    {
      match codec(file[pos..]) {
        case Malformed => return;
        case Item(d, size) =>
          assert file[pos..][size..] == file[pos + size..];
          r := r + [d];
          pos := pos + size;
      }
    }
    assert codec([]).Malformed?;
  }

  // ----- The loop yields the longest decodable prefix -----

  /** `b` is exactly the encodings of `ds`, one after the other. */
  ghost predicate Encodes<D(!new)>(codec: Codec<D>, b: Bytes, ds: seq<D>)
    decreases |ds|
  {
    if ds == [] then b == []
    else
      && codec(b).Item? && codec(b).descriptor == ds[0] && codec(b).size <= |b|
      && Encodes(codec, b[codec(b).size..], ds[1..])
  }

  lemma {:induction false} ItemPrefix<D(!new)>(codec: Codec<D>, b: Bytes, k: nat)
    requires SelfDelimiting(codec) && codec(b).Item? && codec(b).size <= k <= |b|
    ensures codec(b[..k]) == codec(b)
  {
    var n := codec(b).size;
    assert Stable(codec, b);
    assert b[..k] == b[..n] + b[n..k];
  }

  lemma {:induction false} ItemExtend<D(!new)>(codec: Codec<D>, b: Bytes, rest: Bytes)
    requires SelfDelimiting(codec) && codec(b).Item?
    ensures codec(b + rest) == codec(b)
  {
    var n := codec(b).size;
    assert Stable(codec, b);
    assert b + rest == b[..n] + (b[n..] + rest);
  }

  /** What was read is encoded by the bytes read, and no longer prefix of the file encodes anything. */
  lemma {:induction false} DecodesLongestPrefix<D(!new)>(codec: Codec<D>, b: Bytes, k: nat, ds: seq<D>)
    requires SelfDelimiting(codec) && k <= |b|
    ensures Encodes(codec, b[..Decodable(codec, b)], DecodeAll(codec, b))
    ensures Encodes(codec, b[..k], ds) ==> k <= Decodable(codec, b) && ds <= DecodeAll(codec, b)
    decreases |b|
  {
    if codec(b).Item? {
      var (n, m) := (codec(b).size, Decodable(codec, b));
      var rest := b[n..];
      ItemPrefix(codec, b, m);
      assert b[..m][n..] == rest[..m - n];
      DecodesLongestPrefix(codec, rest, if k >= n then k - n else 0, if ds == [] then [] else ds[1..]);
    }
    if ds != [] && Encodes(codec, b[..k], ds) {
      ItemExtend(codec, b[..k], b[k..]);
      assert b[..k] + b[k..] == b;
      assert b[..k][codec(b).size..] == b[codec(b).size..][..k - codec(b).size];
    }
  }

  // ----- Concatenation -----

  /** What is left of a file where its decoding stops. */
  ghost function Tail<D(!new)>(codec: Codec<D>, b: Bytes): (r: Bytes)
    requires SelfDelimiting(codec)
  {
    b[Decodable(codec, b)..]
  }

  /** Decoding a file followed by anything is decoding the file, and then its tail followed by the same. So the
      second file is recovered as it is if and only if the tail of the first one does not change what it decodes
      to. */
  lemma {:induction false} ConcatExactly<D(!new)>(codec: Codec<D>, a: Bytes, b: Bytes)
    requires SelfDelimiting(codec)
    ensures DecodeAll(codec, a + b) == DecodeAll(codec, a) + DecodeAll(codec, Tail(codec, a) + b)
    ensures Decodable(codec, a + b) == Decodable(codec, a) + Decodable(codec, Tail(codec, a) + b)
    ensures DecodeAll(codec, a + b) == DecodeAll(codec, a) + DecodeAll(codec, b) <==>
            DecodeAll(codec, Tail(codec, a) + b) == DecodeAll(codec, b)
  {
    TailThenRest(codec, a, b);
    SamePrefix(DecodeAll(codec, a), DecodeAll(codec, Tail(codec, a) + b), DecodeAll(codec, b));
  }

  lemma {:induction false} TailThenRest<D(!new)>(codec: Codec<D>, a: Bytes, b: Bytes)
    requires SelfDelimiting(codec)
    ensures DecodeAll(codec, a + b) == DecodeAll(codec, a) + DecodeAll(codec, Tail(codec, a) + b)
    ensures Decodable(codec, a + b) == Decodable(codec, a) + Decodable(codec, Tail(codec, a) + b)
    decreases |a|
  {
    if codec(a).Item? {
      var n := codec(a).size;
      ItemExtend(codec, a, b);
      assert (a + b)[n..] == a[n..] + b;
      assert Tail(codec, a[n..]) == Tail(codec, a);
      TailThenRest(codec, a[n..], b);
    } else {
      assert Tail(codec, a) == a;
    }
  }

  lemma {:induction false} SamePrefix<T>(prefix: seq<T>, s: seq<T>, r: seq<T>)
    ensures prefix + s == prefix + r <==> s == r
  {
    assert (prefix + s)[|prefix|..] == s && (prefix + r)[|prefix|..] == r;
  }

  /** A well-formed file has no tail, so it hides nothing. */
  lemma {:induction false} DecodeConcat<D(!new)>(codec: Codec<D>, a: Bytes, b: Bytes)
    requires SelfDelimiting(codec) && WellFormed(codec, a)
    ensures DecodeAll(codec, a + b) == DecodeAll(codec, a) + DecodeAll(codec, b)
    ensures Decodable(codec, a + b) == |a| + Decodable(codec, b)
  {
    ConcatExactly(codec, a, b);
    assert Tail(codec, a) + b == b;
  }

  /** A tail that does not decode with the next file after it hides all of that file. */
  lemma {:induction false} DeadTailHidesRest<D(!new)>(codec: Codec<D>, a: Bytes, b: Bytes)
    requires SelfDelimiting(codec)
    ensures DecodeAll(codec, a + b) == DecodeAll(codec, a) <==> codec(Tail(codec, a) + b).Malformed?
    ensures codec(Tail(codec, a) + b).Malformed? ==>
              (DecodeAll(codec, a + b) == DecodeAll(codec, a) + DecodeAll(codec, b) <==> DecodeAll(codec, b) == [])
  {
    ConcatExactly(codec, a, b);
  }

  /** The descriptors of the files, read one by one. */
  ghost function Total<D(!new)>(codec: Codec<D>, files: seq<Bytes>): (r: multiset<D>)
    requires SelfDelimiting(codec)
  {
    if files == [] then multiset{}
    else multiset(DecodeAll(codec, files[0])) + Total(codec, files[1..])
  }

  lemma {:induction false} TotalWithout<D(!new)>(codec: Codec<D>, files: seq<Bytes>, i: nat)
    requires SelfDelimiting(codec) && i < |files|
    ensures Total(codec, files) == multiset(DecodeAll(codec, files[i])) + Total(codec, files[..i] + files[i + 1..])
  {
    if i > 0 {
      var (first, rest) := (files[0], files[1..]);
      var without := rest[..i - 1] + rest[i..];
      assert files[..i] + files[i + 1..] == [first] + without;
      assert ([first] + without)[1..] == without;
      assert Total(codec, rest) == multiset(DecodeAll(codec, rest[i - 1])) + Total(codec, without) by {
        TotalWithout(codec, rest, i - 1);
      }
    } else {
      assert files[..i] + files[i + 1..] == files[1..];
    }
  }

  lemma {:induction false} TotalOrder<D(!new)>(codec: Codec<D>, files: seq<Bytes>, files': seq<Bytes>)
    requires SelfDelimiting(codec) && multiset(files) == multiset(files')
    ensures Total(codec, files) == Total(codec, files')
    decreases |files|
  {
    if files == [] {
      assert |multiset(files')| == 0;
    } else {
      assert files[0] in multiset(files');
      var i :| 0 <= i < |files'| && files'[i] == files[0];
      SameWithoutFirst(files, files', i);
      var others := files'[..i] + files'[i + 1..];
      TotalOrder(codec, files[1..], others);
      assert Total(codec, files') == multiset(DecodeAll(codec, files[0])) + Total(codec, others) by {
        TotalWithout(codec, files', i);
      }
    }
  }

  lemma {:induction false} SameWithoutFirst<T>(s: seq<T>, r: seq<T>, i: nat)
    requires multiset(s) == multiset(r) && s != [] && i < |r| && r[i] == s[0]
    ensures multiset(s[1..]) == multiset(r[..i] + r[i + 1..])
  {
    MultisetWithout(s, 0);
    assert s[..0] + s[1..] == s[1..];
    MultisetWithout(r, i);
  }

  lemma {:induction false} MultisetWithout<T>(s: seq<T>, i: nat)
    requires i < |s|
    ensures multiset(s) - multiset{s[i]} == multiset(s[..i] + s[i + 1..])
  {
    assert s == s[..i] + [s[i]] + s[i + 1..];
  }

  lemma {:induction false} FlattenTotal<D(!new)>(codec: Codec<D>, files: seq<Bytes>)
    requires SelfDelimiting(codec)
    requires forall b | b in files :: WellFormed(codec, b)
    ensures multiset(DecodeAll(codec, Flatten(files))) == Total(codec, files)
  {
    if files == [] {
      assert codec([]).Malformed?;
    } else {
      FlattenTotal(codec, files[1..]);
      DecodeConcat(codec, files[0], Flatten(files[1..]));
    }
  }

  /** One blob for each group of files. */
  function Blobs(groups: seq<seq<Bytes>>): (r: seq<Bytes>) {
    if groups == [] then [] else [Flatten(groups[0])] + Blobs(groups[1..])
  }

  lemma {:induction false} TotalAppend<D(!new)>(codec: Codec<D>, files: seq<Bytes>, more: seq<Bytes>)
    requires SelfDelimiting(codec)
    ensures Total(codec, files + more) == Total(codec, files) + Total(codec, more)
  {
    if files == [] {
      assert files + more == more;
    } else {
      assert (files + more)[1..] == files[1..] + more;
      TotalAppend(codec, files[1..], more);
    }
  }

  lemma {:induction false} BlobsTotal<D(!new)>(codec: Codec<D>, groups: seq<seq<Bytes>>)
    requires SelfDelimiting(codec)
    requires forall b | b in Flatten(groups) :: WellFormed(codec, b)
    ensures Total(codec, Blobs(groups)) == Total(codec, Flatten(groups))
  {
    if groups != [] {
      FlattenTotal(codec, groups[0]);
      BlobsTotal(codec, groups[1..]);
      TotalAppend(codec, groups[0], Flatten(groups[1..]));
    }
  }

  /** Well-formed files may be taken in any order and put together into any number of blobs: the descriptors
      recovered are those of the files read one by one. */
  lemma {:induction false} GroupingIrrelevant<D(!new)>(codec: Codec<D>, files: seq<Bytes>, groups: seq<seq<Bytes>>)
    requires SelfDelimiting(codec)
    requires forall b | b in files :: WellFormed(codec, b)
    requires multiset(Flatten(groups)) == multiset(files)
    ensures Total(codec, Blobs(groups)) == Total(codec, files)
  {
    forall b | b in Flatten(groups) ensures WellFormed(codec, b) {
      assert b in multiset(files);
    }
    BlobsTotal(codec, groups);
    TotalOrder(codec, Flatten(groups), files);
  }

  // ----- A truncated file is not harmless -----

  /** A codec for byte strings: one byte for the length, then the contents. */
  function Prefixed(b: Bytes): (r: Decoded<Bytes>) {
    if b == [] || |b| < 1 + b[0] as nat then Malformed else Item(b[1..1 + b[0] as nat], 1 + b[0] as nat)
  }

  lemma {:induction false} PrefixedSelfDelimiting()
    ensures SelfDelimiting(Prefixed)
  {
    forall b | Prefixed(b).Item? ensures Stable(Prefixed, b) {
      var n := Prefixed(b).size;
      forall rest: Bytes ensures Prefixed(b[..n] + rest) == Prefixed(b) {
        assert (b[..n] + rest)[1..n] == b[1..n];
      }
    }
  }

  /** The truncated file swallows the start of the next one when the two are concatenated, so the other
      file's descriptor is lost; read one by one, or in the other order, it is recovered. */
  lemma {:induction false} TruncatedFileHidesNeighbour() returns (truncated: Bytes, whole: Bytes)
    ensures SelfDelimiting(Prefixed)
    ensures DecodeAll(Prefixed, truncated) == [] && DecodeAll(Prefixed, whole) == [[9]]
    ensures DecodeAll(Prefixed, whole + truncated) == [[9]]
    ensures DecodeAll(Prefixed, truncated + whole) == [[7, 1]]
    ensures DecodeAll(Prefixed, Tail(Prefixed, truncated) + whole) != DecodeAll(Prefixed, whole)
  {
    PrefixedSelfDelimiting();
    truncated, whole := [2, 7], [1, 9];
    assert Prefixed(truncated) == Malformed;
    assert whole[1..2] == [9];
    assert Prefixed(whole) == Item([9], 2) && whole[2..] == [];
    DecodeConcat(Prefixed, whole, truncated);
    var swallowed := truncated + whole;
    assert swallowed[1..3] == [7, 1];
    assert Prefixed(swallowed) == Item([7, 1], 3);
    assert swallowed[3..] == [9] && Prefixed([9]) == Malformed;
    ConcatExactly(Prefixed, truncated, whole);
  }
}

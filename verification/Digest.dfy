/** The bytes behind a certificate's input digest: length-prefixed, so they can be read back. */
module Digest {
  import opened Domain
  import opened Changes
  import Sorting

  const LENGTH_BYTES: nat := 8

  /** The most significant byte first. */
  function BigEndian(n: nat, width: nat): (s: string)
    ensures |s| == width
  {
    if width == 0 then "" else BigEndian(n / 256, width - 1) + [(n % 256) as char]
  }

  function Field(b: string): string { BigEndian(|b|, LENGTH_BYTES) + b }

  function FileBytes(f: ChangedFile): string {
    Field(f.path) + (Field(f.previousPath) + (Field(f.status) + (Field(f.previous) + Field(f.current))))
  }

  function Encode(files: seq<ChangedFile>): string {
    if files == [] then "" else FileBytes(files[0]) + Encode(files[1..])
  }

  /** What is hashed for a changeset. */
  function Stream(files: seq<ChangedFile>): string { Encode(Sorting.Sort(FileLe, files)) }

  // ---------------------------------------------------------------- writing it

  /** A running hash, seen as the bytes written to it. */
  class HashState {
    var written: string

    constructor ()
      ensures written == ""
    {
      written := "";
    }

    method Write(b: string)
      modifies this
      ensures written == old(written) + b
    {
      written := written + b;
    }

    method WriteField(b: string)
      modifies this
      ensures written == old(written) + Field(b)
    {
      Write(BigEndian(|b|, LENGTH_BYTES));
      Write(b);
      assert old(written) + BigEndian(|b|, LENGTH_BYTES) + b == old(written) + Field(b);
    }
  }

  lemma {:induction false} EncodeSnoc(files: seq<ChangedFile>, f: ChangedFile)
    ensures Encode(files + [f]) == Encode(files) + FileBytes(f)
  {
    if files == [] {
      assert files + [f] == [f] && [f][1..] == [];
    } else {
      EncodeSnoc(files[1..], f);
      assert (files + [f])[1..] == files[1..] + [f];
      Joined(FileBytes(files[0]), Encode(files[1..]), FileBytes(f));
    }
  }

  lemma Joined(a: string, b: string, c: string)
    ensures a + (b + c) == (a + b) + c
  {
  }

  lemma FiveFields(before: string, a: string, b: string, c: string, d: string, e: string)
    ensures ((((before + a) + b) + c) + d) + e == before + (a + (b + (c + (d + e))))
  {
  }

  method WriteFile(h: HashState, f: ChangedFile)
    modifies h
    ensures h.written == old(h.written) + FileBytes(f)
  {
    h.WriteField(f.path);
    h.WriteField(f.previousPath);
    h.WriteField(f.status);
    h.WriteField(f.previous);
    h.WriteField(f.current);
    FiveFields(old(h.written), Field(f.path), Field(f.previousPath), Field(f.status), Field(f.previous),
               Field(f.current));
  }

  /** The changeset is sorted by path, then written field by field. */
  method InputDigest(files: seq<ChangedFile>) returns (h: HashState)
    ensures fresh(h) && h.written == Stream(files)
  {
    var sorted := Sorting.Sort(FileLe, files);
    h := new HashState();
    for i := 0 to |sorted|
      invariant h.written == Encode(sorted[..i])
    {
      assert sorted[..i + 1] == sorted[..i] + [sorted[i]];
      EncodeSnoc(sorted[..i], sorted[i]);
      WriteFile(h, sorted[i]);
    }
    assert sorted[..|sorted|] == sorted;
  }

  /** Folding in a second digest: both length-prefixed, and hashed again. */
  method CombineDigests(input: string, policy: string) returns (h: HashState)
    ensures fresh(h) && h.written == Field(input) + Field(policy)
  {
    h := new HashState();
    h.WriteField(input);
    h.WriteField(policy);
  }

  // ---------------------------------------------------------------- reading it back

  function Value(s: string): nat {
    if s == "" then 0 else 256 * Value(s[..|s| - 1]) + s[|s| - 1] as int
  }

  function Capacity(width: nat): nat { if width == 0 then 1 else 256 * Capacity(width - 1) }

  lemma {:induction false} ValueOfBigEndian(n: nat, width: nat)
    requires n < Capacity(width)
    ensures Value(BigEndian(n, width)) == n
  {
    if width > 0 {
      var s := BigEndian(n, width);
      ValueOfBigEndian(n / 256, width - 1);
      assert s[..|s| - 1] == BigEndian(n / 256, width - 1);
    }
  }

  function Pow256(n: nat): (r: nat)
    ensures r >= 1
  {
    if n == 0 then 1 else 256 * Pow256(n - 1)
  }

  lemma DivideTwice(n: nat, a: nat)
    requires a >= 1
    ensures n / 256 / a == n / (256 * a)
  {
    var q, r := n / 256 / a, n / 256 % a;
    assert n / 256 == a * q + r;
    assert n == 256 * (a * q + r) + n % 256;
    assert 256 * (a * q) == (256 * a) * q;
    QuotientIs(n, 256 * a, q, 256 * r + n % 256);
  }

  lemma QuotientIs(n: nat, d: nat, q: nat, r: nat)
    requires d >= 1 && n == d * q + r && r < d
    ensures n / d == q
  {
    assert d * (n / d - q) == d * (n / d) - d * q;
    SmallMultiple(d, n / d - q);
  }

  lemma SmallMultiple(d: int, k: int)
    requires d >= 1 && -d < d * k < d
    ensures k == 0
  {
    if k >= 1 {
      AtLeastOnce(d, k);
    } else if k <= -1 {
      AtMostMinus(d, k);
    }
  }

  lemma AtLeastOnce(d: int, k: int)
    requires d >= 1 && k >= 1
    ensures d * k >= d
  {
  }

  lemma AtMostMinus(d: int, k: int)
    requires d >= 1 && k <= -1
    ensures d * k <= -d
  {
  }

  /** Which byte stands where in a length: the most significant first. */
  lemma {:induction false} ByteAt(n: nat, width: nat, k: nat)
    requires k < width
    ensures BigEndian(n, width)[k] as int == n / Pow256(width - 1 - k) % 256
  {
    if k < width - 1 {
      ByteAt(n / 256, width - 1, k);
      DivideTwice(n, Pow256(width - 2 - k));
    }
  }

  /** A field, and what comes after it. */
  function ReadField(s: string): Option<(string, string)> {
    if |s| < LENGTH_BYTES then None
    else
      var n := Value(s[..LENGTH_BYTES]);
      if |s| < LENGTH_BYTES + n then None
      else Some((s[LENGTH_BYTES..LENGTH_BYTES + n], s[LENGTH_BYTES + n..]))
  }

  /** Short enough for its length to fit in the eight bytes written for it. */
  predicate Short(b: string) { |b| < 0x1_0000_0000_0000_0000 }

  lemma FieldReads(b: string, rest: string)
    requires Short(b)
    ensures ReadField(Field(b) + rest) == Some((b, rest))
  {
    assert Capacity(8) == 256 * (256 * (256 * (256 * Capacity(4))));
    ValueOfBigEndian(|b|, LENGTH_BYTES);
    var s := Field(b) + rest;
    assert s[..LENGTH_BYTES] == BigEndian(|b|, LENGTH_BYTES);
    assert s[LENGTH_BYTES..LENGTH_BYTES + |b|] == b && s[LENGTH_BYTES + |b|..] == rest;
  }

  function ReadFile(s: string): Option<(ChangedFile, string)> {
    match ReadField(s)
    case None => None
    case Some((path, s1)) =>
      match ReadField(s1)
      case None => None
      case Some((previousPath, s2)) =>
        match ReadField(s2)
        case None => None
        case Some((status, s3)) =>
          match ReadField(s3)
          case None => None
          case Some((previous, s4)) =>
            match ReadField(s4)
            case None => None
            case Some((current, rest)) => Some((ChangedFile(path, previousPath, status, previous, current), rest))
  }

  /** The path-sorted list of files a stream was written from. */
  function Decode(s: string): Option<seq<ChangedFile>>
    decreases |s|
  {
    if s == "" then Some([])
    else match ReadFile(s)
      case None => None
      case Some((f, rest)) =>
        if |rest| >= |s| then None
        else match Decode(rest) case None => None case Some(files) => Some([f] + files)
  }

  predicate ShortFile(f: ChangedFile) {
    Short(f.path) && Short(f.previousPath) && Short(f.status) && Short(f.previous) && Short(f.current)
  }

  lemma FileReads(f: ChangedFile, rest: string)
    requires ShortFile(f)
    ensures ReadFile(FileBytes(f) + rest) == Some((f, rest))
    ensures |FileBytes(f)| > 0
  {
    var e := Field(f.current) + rest;
    var d := Field(f.previous) + e;
    var c := Field(f.status) + d;
    var b := Field(f.previousPath) + c;
    FiveFieldsThen(Field(f.path), Field(f.previousPath), Field(f.status), Field(f.previous), Field(f.current), rest);
    FieldReads(f.path, b);
    FieldReads(f.previousPath, c);
    FieldReads(f.status, d);
    FieldReads(f.previous, e);
    FieldReads(f.current, rest);
  }

  lemma FiveFieldsThen(a: string, b: string, c: string, d: string, e: string, rest: string)
    ensures (a + (b + (c + (d + e)))) + rest == a + (b + (c + (d + (e + rest))))
  {
  }

  /** The stream is uniquely decodable. */
  lemma {:induction false} DecodeEncode(files: seq<ChangedFile>)
    requires forall f | f in files :: ShortFile(f)
    ensures Decode(Encode(files)) == Some(files)
  {
    if files != [] {
      FileReads(files[0], Encode(files[1..]));
      DecodeEncode(files[1..]);
      assert files == [files[0]] + files[1..];
    }
  }

  /**
   Two changesets that write the same stream hold the same files; and the order they came in is not
   part of the stream, so with distinct paths the converse holds too.
   */
  lemma StreamIdentifiesChangeset(a: seq<ChangedFile>, b: seq<ChangedFile>)
    requires forall f | f in a + b :: ShortFile(f)
    ensures Stream(a) == Stream(b) ==> multiset(a) == multiset(b)
    ensures Sorting.DistinctKeys(FileLe, a) ==> (Stream(a) == Stream(b) <==> multiset(a) == multiset(b))
  {
    var x, y := Sorting.Sort(FileLe, a), Sorting.Sort(FileLe, b);
    if Sorting.DistinctKeys(FileLe, a) && multiset(a) == multiset(b) {
      FileOrder();
      Sorting.SortIgnoresOrder(FileLe, a, b);
    }
    if Stream(a) == Stream(b) {
      forall f | f in x + y ensures ShortFile(f) {
        assert f in multiset(x) || f in multiset(y);
        assert f in a + b;
      }
      DecodeEncode(x);
      DecodeEncode(y);
    }
  }

  /** Folding a second digest in loses neither. */
  lemma CombinedIdentifiesBoth(a: string, b: string, a': string, b': string)
    requires Short(a) && Short(b) && Short(a') && Short(b')
    requires Field(a) + Field(b) == Field(a') + Field(b')
    ensures a == a' && b == b'
  {
    FieldReads(a, Field(b));
    FieldReads(a', Field(b'));
    FieldReads(b, "");
    FieldReads(b', "");
    assert Field(b) + "" == Field(b) && Field(b') + "" == Field(b');
  }
}

/** The on-disk cache of compiled shaders in the Direct3D 11 back end: a compiled blob followed by a checksum of it. */
module ShaderCache {
  import opened Options

  type Byte = b: int | 0 <= b < 256 witness 0

  const FNV_OFFSET: nat := 14695981039346656037
  const FNV_PRIME: nat := 1099511628211
  const TWO_TO_THE_64: nat := 0x1_0000_0000_0000_0000

  function Pow2(n: nat): (p: nat)
    ensures p > 0
  {
    if n == 0 then 1 else 2 * Pow2(n - 1)
  }

  /** Exclusive or of the lowest `bits` bits. */
  function Xor(a: nat, b: nat, bits: nat): nat {
    if bits == 0 then 0 else 2 * Xor(a / 2, b / 2, bits - 1) + if a % 2 == b % 2 then 0 else 1
  }

  /** Characters are signed, so that bytes from 0x80 on fill all the higher bits when they are widened. */
  function SignExtended(b: Byte): nat {
    if b < 0x80 then b else TWO_TO_THE_64 - 256 + b
  }

  /** Multiplication of 64-bit words. */
  function Times(h: nat): nat {
    h * FNV_PRIME % TWO_TO_THE_64
  }

  function Fnv1a(s: seq<Byte>): nat {
    if s == [] then FNV_OFFSET else Times(Xor(Fnv1a(s[..|s| - 1]), SignExtended(s[|s| - 1]), 64))
  }

  // ---------------------------------------------------------------------------------------------------------
  // Every step of the hash can be undone

  function Bit(a: nat, i: nat): nat {
    if i == 0 then a % 2 else Bit(a / 2, i - 1)
  }

  /** A bit is set exactly if those of the two words differ. */
  lemma {:induction false} XorIsBitwise(a: nat, b: nat, bits: nat, i: nat)
    requires i < bits
    ensures Bit(Xor(a, b, bits), i) == if Bit(a, i) != Bit(b, i) then 1 else 0
  {
    if i > 0 {
      XorIsBitwise(a / 2, b / 2, bits - 1, i - 1);
    }
  }

  /** A widened byte is the word of 64 bits for the same signed number. */
  lemma WideningKeepsSign(b: Byte)
    ensures SignExtended(b) == (if b < 128 then b else b - 256) % 0x1_0000_0000_0000_0000
  {
  }

  lemma {:induction false} XorFits(a: nat, b: nat, bits: nat)
    ensures Xor(a, b, bits) < Pow2(bits)
  {
    if bits > 0 {
      XorFits(a / 2, b / 2, bits - 1);
    }
  }

  lemma {:induction false} XorCancels(a: nat, b: nat, c: nat, d: nat, bits: nat)
    requires a < Pow2(bits) && b < Pow2(bits) && c < Pow2(bits) && d < Pow2(bits)
    requires Xor(a, b, bits) == Xor(c, d, bits)
    ensures a == c <==> b == d
  {
    if bits > 0 {
      XorCancels(a / 2, b / 2, c / 2, d / 2, bits - 1);
    }
  }

  /** The prime is odd, so multiplication by it can be undone by multiplying with its inverse. */
  lemma TimesIsInjective(a: nat, b: nat)
    requires a < TWO_TO_THE_64 && b < TWO_TO_THE_64 && Times(a) == Times(b)
    ensures a == b
  {
    TimesInverse(a);
    TimesInverse(b);
  }

  lemma TimesInverse(a: nat)
    requires a < TWO_TO_THE_64
    ensures Times(a) * 0xce965057aff6957b % TWO_TO_THE_64 == a
  {
    var inverse := 0xce965057aff6957b;
    var q := a * FNV_PRIME / TWO_TO_THE_64;
    var k := FNV_PRIME * inverse / TWO_TO_THE_64;
    assert FNV_PRIME * inverse == k * TWO_TO_THE_64 + 1;
    assert Times(a) == a * FNV_PRIME - q * TWO_TO_THE_64;
    hide Times;
    assert Times(a) * inverse == a + (a * k - q * inverse) * TWO_TO_THE_64;
    Remainder(Times(a) * inverse, a, a * k - q * inverse);
  }

  lemma Remainder(x: int, a: nat, k: int)
    requires a < TWO_TO_THE_64 && x == a + k * TWO_TO_THE_64
    ensures x % TWO_TO_THE_64 == a
  {
  }

  lemma Pow64()
    ensures Pow2(64) == TWO_TO_THE_64
  {
    assert Pow2(8) == 0x100;
    assert Pow2(16) == 0x1_0000;
    assert Pow2(24) == 0x100_0000;
    assert Pow2(32) == 0x1_0000_0000;
    assert Pow2(40) == 0x100_0000_0000;
    assert Pow2(48) == 0x1_0000_0000_0000;
    assert Pow2(56) == 0x100_0000_0000_0000;
  }

  lemma HashFits(s: seq<Byte>)
    ensures Fnv1a(s) < TWO_TO_THE_64
  {
  }

  /** From the same last byte on, different hashes stay different; and from the same hash, different bytes make it
      different. */
  lemma StepIsInjective(s: seq<Byte>, t: seq<Byte>)
    requires s != [] && t != [] && Fnv1a(s) == Fnv1a(t)
    ensures Fnv1a(s[..|s| - 1]) == Fnv1a(t[..|t| - 1]) <==> s[|s| - 1] == t[|t| - 1]
  {
    var g, h := Fnv1a(s[..|s| - 1]), Fnv1a(t[..|t| - 1]);
    var a, b := SignExtended(s[|s| - 1]), SignExtended(t[|t| - 1]);
    HashFits(s[..|s| - 1]);
    HashFits(t[..|t| - 1]);
    assert a < TWO_TO_THE_64 && b < TWO_TO_THE_64 && (a == b <==> s[|s| - 1] == t[|t| - 1]);
    assert Fnv1a(s) == Times(Xor(g, a, 64)) && Fnv1a(t) == Times(Xor(h, b, 64));
    hide Fnv1a, SignExtended, Xor, Times, Pow2;
    Pow64();
    XorFits(g, a, 64);
    XorFits(h, b, 64);
    TimesIsInjective(Xor(g, a, 64), Xor(h, b, 64));
    XorCancels(g, a, h, b, 64);
  }

  /** The hash tells apart any two blobs of the same length that differ in exactly one byte. */
  lemma {:induction false} OneByteChangesHash(s: seq<Byte>, i: nat, b: Byte)
    requires i < |s| && b != s[i]
    ensures Fnv1a(s[i := b]) != Fnv1a(s)
  {
    var t := s[i := b];
    if i < |s| - 1 {
      OneByteChangesHash(s[..|s| - 1], i, b);
      assert t[..|t| - 1] == s[..|s| - 1][i := b];
    } else {
      assert t[..|t| - 1] == s[..|s| - 1];
    }
    hide Fnv1a;
    if Fnv1a(t) == Fnv1a(s) {
      StepIsInjective(s, t);
    }
  }

  /** What FNV-1a is defined as, in sections 2 and 5 of draft-eastlake-fnv: bytes are not sign-extended, and the prime
      is 2^40 + 2^8 + 0xb3. */
  function StandardFnv1a(s: seq<Byte>): nat {
    if s == [] then 0xcbf29ce484222325
    else Xor(StandardFnv1a(s[..|s| - 1]), s[|s| - 1], 64) * (0x100_0000_0000 + 0x100 + 0xb3) % 0x1_0000_0000_0000_0000
  }

  /** On a text whose bytes before the last are below 0x80, the hash is the standard one if and only if the last byte
      is, too. */
  lemma {:induction false} FirstHighByte(s: seq<Byte>)
    requires forall i :: 0 <= i < |s| - 1 ==> s[i] < 0x80
    ensures Fnv1a(s) == StandardFnv1a(s) <==> forall i :: 0 <= i < |s| ==> s[i] < 0x80
  {
    if s != [] {
      var init, b := s[..|s| - 1], s[|s| - 1];
      FirstHighByte(init);
      var h := Fnv1a(init);
      HashFits(init);
      assert Fnv1a(s) == Times(Xor(h, SignExtended(b), 64)) && StandardFnv1a(s) == Times(Xor(h, b, 64));
      if Fnv1a(s) == StandardFnv1a(s) {
        hide Fnv1a, StandardFnv1a, Xor, Times, Pow2;
        Pow64();
        XorFits(h, SignExtended(b), 64);
        XorFits(h, b, 64);
        TimesIsInjective(Xor(h, SignExtended(b), 64), Xor(h, b, 64));
        XorCancels(h, SignExtended(b), h, b, 64);
      }
    }
  }

  /** On a text and all its beginnings the hash is the standard one if and only if all bytes are below 0x80. */
  lemma HashIsStandard(s: seq<Byte>)
    ensures (forall n :: 0 <= n <= |s| ==> Fnv1a(s[..n]) == StandardFnv1a(s[..n]))
        <==> forall i :: 0 <= i < |s| ==> s[i] < 0x80
  {
    hide Fnv1a, StandardFnv1a;
    if forall i :: 0 <= i < |s| ==> s[i] < 0x80 {
      forall n | 0 <= n <= |s|
        ensures Fnv1a(s[..n]) == StandardFnv1a(s[..n])
      {
        FirstHighByte(s[..n]);
      }
    } else {
      var i := FirstHigh(s);
      FirstHighByte(s[..i + 1]);
      assert s[..i + 1][i] == s[i];
    }
  }

  lemma {:induction false} FirstHigh(s: seq<Byte>) returns (i: nat)
    requires exists j :: 0 <= j < |s| && s[j] >= 0x80
    ensures i < |s| && s[i] >= 0x80 && forall j :: 0 <= j < i ==> s[j] < 0x80
  {
    if s[0] >= 0x80 {
      i := 0;
    } else {
      var rest := s[1..];
      var j :| 0 <= j < |s| && s[j] >= 0x80;
      assert rest[j - 1] == s[j];
      var k := FirstHigh(rest);
      i := k + 1;
      assert forall l :: 1 <= l < |s| ==> s[l] == rest[l - 1];
    }
  }

  // ---------------------------------------------------------------------------------------------------------
  // Files

  /** A word as bytes, the lowest first. */
  function Bytes(h: nat, n: nat): (r: seq<Byte>)
    ensures |r| == n
  {
    if n == 0 then [] else [h % 256] + Bytes(h / 256, n - 1)
  }

  function Word(s: seq<Byte>): nat {
    if s == [] then 0 else s[0] + 256 * Word(s[1..])
  }

  lemma {:induction false} WordOfBytes(h: nat, n: nat)
    requires h < Pow2(8 * n)
    ensures Word(Bytes(h, n)) == h
  {
    if n > 0 {
      PowEight(n);
      WordOfBytes(h / 256, n - 1);
      assert Bytes(h, n)[1..] == Bytes(h / 256, n - 1);
    }
  }

  lemma PowEight(n: nat)
    requires n > 0
    ensures Pow2(8 * n) == 256 * Pow2(8 * (n - 1))
  {
    hide Pow2;
    PowTwo(8 * n);
    PowTwo(8 * n - 2);
    PowTwo(8 * n - 4);
    PowTwo(8 * n - 6);
  }

  lemma PowTwo(m: nat)
    requires m >= 2
    ensures Pow2(m) == 4 * Pow2(m - 2)
  {
    assert Pow2(m) == 2 * Pow2(m - 1);
  }

  lemma {:induction false} WordIsInjective(s: seq<Byte>, t: seq<Byte>)
    requires |s| == |t| && Word(s) == Word(t)
    ensures s == t
  {
    if s != [] {
      assert s[0] == Word(s) % 256 == Word(t) % 256 == t[0];
      WordIsInjective(s[1..], t[1..]);
      assert s == [s[0]] + s[1..] && t == [t[0]] + t[1..];
    }
  }

  function FileOf(blob: seq<Byte>): seq<Byte> {
    blob + Bytes(Fnv1a(blob), 8)
  }

  /** The blob in a file, or `None` if the file is too short or its checksum is wrong. */
  function BlobOf(file: seq<Byte>): Option<seq<Byte>> {
    if |file| <= 8 then None
    else
      var blob := file[..|file| - 8];
      if Fnv1a(blob) == Word(file[|file| - 8..]) then Some(blob) else None
  }

  /** A file that was written reads back, unless the blob is empty. */
  lemma FileReadsBack(blob: seq<Byte>)
    ensures BlobOf(FileOf(blob)) == if blob == [] then None else Some(blob)
  {
    var file := FileOf(blob);
    HashFits(blob);
    Pow64();
    WordOfBytes(Fnv1a(blob), 8);
    assert file[..|file| - 8] == blob && file[|file| - 8..] == Bytes(Fnv1a(blob), 8);
    hide Fnv1a, Word, Bytes;
  }

  /** A file with one wrong byte anywhere is rejected. */
  lemma WrongByteIsRejected(blob: seq<Byte>, i: nat, b: Byte)
    requires i < |FileOf(blob)| && b != FileOf(blob)[i]
    ensures BlobOf(FileOf(blob)[i := b]) == None
  {
    var file := FileOf(blob);
    var bad := file[i := b];
    var sum := Bytes(Fnv1a(blob), 8);
    HashFits(blob);
    Pow64();
    WordOfBytes(Fnv1a(blob), 8);
    if i < |blob| {
      OneByteChangesHash(blob, i, b);
      assert bad[..|bad| - 8] == blob[i := b] && bad[|bad| - 8..] == sum;
    } else {
      assert bad[..|bad| - 8] == blob && bad[|bad| - 8..] == sum[i - |blob| := b];
      if Word(sum[i - |blob| := b]) == Word(sum) {
        WordIsInjective(sum[i - |blob| := b], sum);
      }
    }
    hide Fnv1a, Word, Bytes;
  }

  method HashOf(s: seq<Byte>) returns (hash: nat)
    ensures hash == Fnv1a(s)
  {
    hash := FNV_OFFSET;
    for i := 0 to |s|
      invariant hash == Fnv1a(s[..i])
    {
      assert s[..i + 1][..i] == s[..i];
      hash := Xor(hash, SignExtended(s[i]), 64);
      hash := Times(hash);
    }
    assert s[..|s|] == s;
  }

  /** The cache file of one shader source. */
  class CacheFile {
    var contents: Option<seq<Byte>>   // what is on disk, if anything

    constructor (contents: Option<seq<Byte>>)
      ensures this.contents == contents
    {
      this.contents := contents;
    }

    /** Takes the blob from the cache if it is sound there. Otherwise compiles the source, which may fail, and tries to
        write the cache anew; a broken file is removed. */
    method Compile(compiled: Option<seq<Byte>>, writable: bool) returns (blob: Option<seq<Byte>>)
      modifies this
      ensures var cached := if old(contents).Some? then BlobOf(old(contents).value) else None;
        && blob == (if cached.Some? then cached else compiled)
        && contents == if cached.Some? then old(contents)
                       else if compiled.Some? && writable then Some(FileOf(compiled.value))
                       else if old(contents) == Some([]) && compiled.None? then old(contents)
                       else None
    {
      if contents.Some? && contents.value != [] {
        var file := contents.value;
        if |file| > 8 {
          var calculated := HashOf(file[..|file| - 8]);
          if calculated == Word(file[|file| - 8..]) {
            return Some(file[..|file| - 8]);
          }
        }
        contents := None;
      }
      blob := compiled;
      if compiled.Some? {
        if writable {
          var calculated := HashOf(compiled.value);
          contents := Some(compiled.value + Bytes(calculated, 8));
        } else {
          contents := None;
        }
      }
    }
  }

  /** Whatever one byte of a written file is overwritten with: the cache gives the right blob or none. */
  lemma CacheIsRight(blob: seq<Byte>, i: nat, b: Byte)
    requires blob != [] && i < |FileOf(blob)|
    ensures BlobOf(FileOf(blob)[i := b]) == if b == FileOf(blob)[i] then Some(blob) else None
  {
    FileReadsBack(blob);
    if b != FileOf(blob)[i] {
      WrongByteIsRejected(blob, i, b);
    } else {
      assert FileOf(blob)[i := b] == FileOf(blob);
    }
    hide FileOf, BlobOf;
  }
}

/** The block checksum: which corruptions it detects, and which it cannot. */
module Checksum {
  function Mix16(x: bv32): bv32 { x ^ (x >> 16) }

  function Mix13(x: bv32): bv32 { x ^ (x >> 13) }

  function Scale1(x: bv32): bv32 { x * 0x85eb_ca6b }

  function Scale2(x: bv32): bv32 { x * 0xc2b2_ae35 }

  /** `murmurhash32`, before the result is widened. */
  function Murmur32(x: bv32): bv32
  {
    Mix16(Scale2(Mix13(Scale1(Mix16(x)))))
  }

  function Unmix13(x: bv32): bv32 { x ^ (x >> 13) ^ (x >> 26) }

  function Unscale1(x: bv32): bv32 { x * 0xa5cb_9243 }

  function Unscale2(x: bv32): bv32 { x * 0x7ed1_b41d }

  /** The inverse: shifts undone, odd factors replaced by their inverses modulo 2^32. */
  function Unmurmur32(y: bv32): bv32
  {
    Mix16(Unscale1(Unmix13(Unscale2(Mix16(y)))))
  }

  // Each stage is undone on its defining expression first; the definitions then carry that to the functions.

  lemma StageDefinitions(x: bv32)
    ensures Mix16(x) == x ^ (x >> 16) && Mix13(x) == x ^ (x >> 13) && Unmix13(x) == x ^ (x >> 13) ^ (x >> 26)
    ensures Scale1(x) == x * 0x85eb_ca6b && Unscale1(x) == x * 0xa5cb_9243
    ensures Scale2(x) == x * 0xc2b2_ae35 && Unscale2(x) == x * 0x7ed1_b41d
  {
  }

  lemma Shift16Undone(x: bv32)
    ensures Mix16(x ^ (x >> 16)) == x
  {
    assert (x ^ (x >> 16)) ^ ((x ^ (x >> 16)) >> 16) == x;
  }

  lemma Shift13Undone(x: bv32)
    ensures Unmix13(x ^ (x >> 13)) == x
  {
    assert (x ^ (x >> 13)) ^ ((x ^ (x >> 13)) >> 13) ^ ((x ^ (x >> 13)) >> 26) == x;
  }

  lemma Shift13Redone(x: bv32)
    ensures Mix13(x ^ (x >> 13) ^ (x >> 26)) == x
  {
    assert (x ^ (x >> 13) ^ (x >> 26)) ^ ((x ^ (x >> 13) ^ (x >> 26)) >> 13) == x;
  }

  lemma FactorsUndone(x: bv32)
    ensures Unscale1(x * 0x85eb_ca6b) == x && Scale1(x * 0xa5cb_9243) == x
    ensures Unscale2(x * 0xc2b2_ae35) == x && Scale2(x * 0x7ed1_b41d) == x
  {
  }

  lemma MixUndone(x: bv32)
    ensures Mix16(Mix16(x)) == x && Unmix13(Mix13(x)) == x && Mix13(Unmix13(x)) == x
  {
    hide Mix16, Mix13, Unmix13, Scale1, Scale2, Unscale1, Unscale2;
    Shift16Undone(x);
    Shift13Undone(x);
    Shift13Redone(x);
    StageDefinitions(x);
  }

  lemma ScaleUndone(x: bv32)
    ensures Unscale1(Scale1(x)) == x && Scale1(Unscale1(x)) == x
    ensures Unscale2(Scale2(x)) == x && Scale2(Unscale2(x)) == x
  {
    hide Mix16, Mix13, Unmix13, Scale1, Scale2, Unscale1, Unscale2;
    FactorsUndone(x);
    StageDefinitions(x);
  }

  /** `murmurhash32` is a bijection on 32-bit words. */
  lemma Murmur32Bijective(x: bv32)
    ensures Unmurmur32(Murmur32(x)) == x && Murmur32(Unmurmur32(x)) == x
  {
    hide Mix16, Mix13, Unmix13, Scale1, Scale2, Unscale1, Unscale2;
    var a := Mix16(x);
    MixUndone(x);
    ScaleUndone(a);
    MixUndone(Scale1(a));
    ScaleUndone(Mix13(Scale1(a)));
    MixUndone(Scale2(Mix13(Scale1(a))));
    MixUndone(Unscale2(a));
    ScaleUndone(Unmix13(Unscale2(a)));
    MixUndone(Unscale1(Unmix13(Unscale2(a))));
  }

  function Low(w: bv64): bv32 { (w & 0xffff_ffff) as bv32 }

  function Widen(x: bv32): bv64 { x as bv64 }

  /** `hash`: the upper half of the word is dropped. */
  function WordHash(w: bv64): bv64
  {
    Widen(Murmur32(Low(w)))
  }

  lemma WidenInjective(x: bv32, y: bv32)
    ensures Widen(x) == Widen(y) ==> x == y
  {
    assert Low(Widen(x)) == x && Low(Widen(y)) == y;
  }

  /** Two words hash alike exactly when their lower halves agree. */
  lemma WordHashEqual(v: bv64, w: bv64)
    ensures WordHash(v) == WordHash(w) <==> Low(v) == Low(w)
  {
    Murmur32Bijective(Low(v));
    Murmur32Bijective(Low(w));
    hide Murmur32, Unmurmur32, Low, Widen;
    WidenInjective(Murmur32(Low(v)), Murmur32(Low(w)));
  }

  function Xor(a: bv64, b: bv64): bv64 { a ^ b }

  lemma XorZero(a: bv64)
    ensures Xor(a, 0) == a && Xor(0, a) == a
  {
  }

  lemma XorDefinition(a: bv64, b: bv64)
    ensures Xor(a, b) == a ^ b
  {
  }

  lemma XorComm(a: bv64, b: bv64)
    ensures Xor(a, b) == Xor(b, a)
  {
  }

  lemma XorSelf(a: bv64)
    ensures Xor(a, a) == 0
  {
  }

  lemma XorAssocExpanded(a: bv64, b: bv64, c: bv64)
    ensures Xor(a ^ b, c) == Xor(a, b ^ c)
  {
  }

  lemma XorAssoc(a: bv64, b: bv64, c: bv64)
    ensures Xor(Xor(a, b), c) == Xor(a, Xor(b, c))
  {
    hide Xor;
    XorAssocExpanded(a, b, c);
    XorDefinition(a, b);
    XorDefinition(b, c);
  }

  lemma XorUndo(a: bv64, b: bv64)
    ensures Xor(Xor(a, b), b) == a
  {
    hide Xor;
    XorAssoc(a, b, b);
    XorSelf(b);
    XorZero(a);
  }

  /** Taking one hash out of a fold and putting another in. */
  lemma XorExchange(a: bv64, h: bv64, v: bv64, f: bv64)
    ensures Xor(Xor(a, v), f) == Xor(Xor(Xor(a, h), f), Xor(h, v))
  {
    hide Xor;
    var p := Xor(a, h);
    XorAssoc(p, f, Xor(h, v));
    XorComm(f, Xor(h, v));
    XorAssoc(p, Xor(h, v), f);
    XorAssoc(p, h, v);
    XorUndo(a, h);
  }

  /** The word loop of `checksum`. */
  function FoldWords(acc: bv64, ws: seq<bv64>): bv64
    decreases |ws|
  {
    if ws == [] then acc else FoldWords(Xor(acc, WordHash(ws[0])), ws[1..])
  }

  /** `hash1`, which adds each byte as a signed char. */
  function TailHash(acc: bv64, bs: seq<bv8>): bv64
    decreases |bs|
  {
    if bs == [] then acc
    else TailHash(Append(acc, bs[0]), bs[1..])
  }

  function Append(h: bv64, b: bv8): bv64
  {
    (h << 5) + h + SignExtend(b)
  }

  function SignExtend(b: bv8): bv64
  {
    if b < 128 then b as bv64 else (b as bv64) | 0xffff_ffff_ffff_ff00
  }

  /** `checksum` of a buffer of whole words followed by up to seven bytes. */
  function Sum(ws: seq<bv64>, tail: seq<bv8>): bv64
  {
    var words := FoldWords(5381, ws);
    if tail == [] then words else Xor(words, TailHash(5381, tail))
  }

  lemma {:induction false} FoldFactors(acc: bv64, ws: seq<bv64>)
    ensures FoldWords(acc, ws) == Xor(acc, FoldWords(0, ws))
    decreases |ws|
  {
    hide Xor, WordHash;
    if ws == [] {
      assert Xor(acc, 0) == acc by {
        XorZero(acc);
      }
    } else {
      var h := WordHash(ws[0]);
      FoldFactors(Xor(acc, h), ws[1..]);
      FoldFactors(Xor(0, h), ws[1..]);
      XorAssoc(acc, h, FoldWords(0, ws[1..]));
      XorZero(h);
    }
  }

  /** Replacing one word changes the fold by the two words' hashes. */
  lemma {:induction false} FoldReplace(acc: bv64, ws: seq<bv64>, i: nat, v: bv64)
    requires i < |ws|
    ensures FoldWords(acc, ws[i := v]) == Xor(FoldWords(acc, ws), Xor(WordHash(ws[i]), WordHash(v)))
    decreases |ws|
  {
    hide Xor, WordHash;
    var h := WordHash(ws[0]);
    if i == 0 {
      var rest := ws[1..];
      assert ws[0 := v][1..] == rest;
      FoldFactors(Xor(acc, WordHash(v)), rest);
      FoldFactors(Xor(acc, h), rest);
      XorExchange(acc, h, WordHash(v), FoldWords(0, rest));
    } else {
      assert ws[i := v][1..] == ws[1..][i - 1 := v];
      FoldReplace(Xor(acc, h), ws[1..], i - 1, v);
    }
  }

  /**
    Detection: of two buffers that differ in one word, the checksums differ if and only if the lower halves of that
    word differ. A change confined to the upper half of a word is never seen.
   */
  lemma SingleWordDetected(ws: seq<bv64>, tail: seq<bv8>, i: nat, v: bv64)
    requires i < |ws|
    ensures Sum(ws[i := v], tail) != Sum(ws, tail) <==> Low(ws[i]) != Low(v)
  {
    FoldReplace(5381, ws, i, v);
    WordHashEqual(ws[i], v);
    hide FoldWords, WordHash, TailHash, Low;
    XorDiffers(FoldWords(5381, ws), WordHash(ws[i]), WordHash(v));
    XorCancels(FoldWords(5381, ws[i := v]), FoldWords(5381, ws), TailHash(5381, tail));
  }

  lemma XorDiffers(f: bv64, a: bv64, b: bv64)
    ensures Xor(f, Xor(a, b)) == f <==> a == b
  {
    hide Xor;
    XorSelf(a);
    XorZero(f);
    if Xor(f, Xor(a, b)) == f {
      XorAssoc(f, f, Xor(a, b));
      XorSelf(f);
      XorZero(Xor(a, b));
      XorUndo(a, b);
      XorZero(b);
    }
  }

  lemma XorCancels(f: bv64, g: bv64, t: bv64)
    ensures Xor(f, t) == Xor(g, t) <==> f == g
  {
    hide Xor;
    XorUndo(f, t);
    XorUndo(g, t);
  }

  /** Exchanging two words is never seen either. */
  lemma SwapUndetected(ws: seq<bv64>, tail: seq<bv8>, i: nat, j: nat)
    requires i < |ws| && j < |ws|
    ensures Sum(ws[i := ws[j]][j := ws[i]], tail) == Sum(ws, tail)
  {
    var ws1 := ws[i := ws[j]];
    FoldReplace(5381, ws, i, ws[j]);
    FoldReplace(5381, ws1, j, ws[i]);
    assert ws1[j] == ws[j];
    hide FoldWords, WordHash, TailHash, Xor;
    XorTwice(FoldWords(5381, ws), WordHash(ws[i]), WordHash(ws[j]));
  }

  lemma XorTwice(f: bv64, a: bv64, b: bv64)
    ensures Xor(Xor(f, Xor(a, b)), Xor(b, a)) == f
  {
    hide Xor;
    XorComm(a, b);
    XorUndo(f, Xor(a, b));
  }

  // ---------------------------------------------------------------- what the checksum is

  /** The value of `x` after each assignment of `murmurhash32`. */
  ghost predicate MixSteps(x0: bv32, x1: bv32, x2: bv32, x3: bv32, x4: bv32, x5: bv32)
  {
    && x1 == x0 ^ (x0 >> 16)
    && x2 == x1 * 0x85eb_ca6b
    && x3 == x2 ^ (x2 >> 13)
    && x4 == x3 * 0xc2b2_ae35
    && x5 == x4 ^ (x4 >> 16)
  }

  lemma MurmurSteps(x0: bv32, x1: bv32, x2: bv32, x3: bv32, x4: bv32, x5: bv32)
    requires MixSteps(x0, x1, x2, x3, x4, x5)
    ensures Murmur32(x0) == x5
  {
    hide Mix16, Mix13, Scale1, Scale2, Unmix13, Unscale1, Unscale2;
    StageDefinitions(x0);
    StageDefinitions(x1);
    StageDefinitions(x2);
    StageDefinitions(x3);
    StageDefinitions(x4);
  }

  lemma {:induction false} FoldSnoc(acc: bv64, ws: seq<bv64>, w: bv64)
    ensures FoldWords(acc, ws + [w]) == Xor(FoldWords(acc, ws), WordHash(w))
    decreases |ws|
  {
    hide Xor, WordHash;
    if ws == [] {
      assert (ws + [w])[1..] == [];
    } else {
      assert (ws + [w])[1..] == ws[1..] + [w];
      FoldSnoc(Xor(acc, WordHash(ws[0])), ws[1..], w);
    }
  }

  /**
    The checksum of nothing is 5381, and each further word is mixed in by the shifts and multiplications of the source
    on its low 32 bits.
   */
  lemma {:induction false} WordMixedIn(ws: seq<bv64>, w: bv64, x0: bv32, x1: bv32, x2: bv32, x3: bv32, x4: bv32,
                                       x5: bv32)
    requires x0 == (w & 0xffff_ffff) as bv32 && MixSteps(x0, x1, x2, x3, x4, x5)
    ensures Sum([], []) == 5381
    ensures Sum(ws + [w], []) == Sum(ws, []) ^ (x5 as bv64)
  {
    hide Murmur32, Xor, WordHash, MixSteps;
    FoldSnoc(5381, ws, w);
    MurmurSteps(x0, x1, x2, x3, x4, x5);
    WordHashIs(w);
    XorDefinition(Sum(ws, []), WordHash(w));
  }

  lemma WordHashIs(w: bv64)
    ensures WordHash(w) == Murmur32((w & 0xffff_ffff) as bv32) as bv64
  {
    hide Murmur32;
  }

  lemma {:induction false} TailSnoc(acc: bv64, bs: seq<bv8>, b: bv8)
    ensures var h := TailHash(acc, bs); TailHash(acc, bs + [b]) == Append(h, b)
    decreases |bs|
  {
    hide Append;
    if bs == [] {
      assert (bs + [b])[1..] == [];
    } else {
      assert (bs + [b])[1..] == bs[1..] + [b];
      TailSnoc(Append(acc, bs[0]), bs[1..], b);
    }
  }

  /** One turn of the loop of `hash1`: `c` is the byte as a signed char, `h'` the hash afterwards. */
  ghost predicate ByteStep(h: bv64, b: bv8, c: bv64, h': bv64)
  {
    && (b < 128 ==> c == b as bv64) && (b >= 128 ==> c == (b as bv64) - 256)
    && h' == (h << 5) + h + c
  }

  lemma AppendIs(h: bv64, b: bv8, c: bv64, h': bv64)
    requires ByteStep(h, b, c, h')
    ensures Append(h, b) == h'
  {
    assert SignExtend(b) == c;
    hide SignExtend;
  }

  lemma {:induction false} SumParts(ws: seq<bv64>, bs: seq<bv8>)
    ensures Sum(ws, []) == FoldWords(5381, ws)
    ensures bs != [] ==> Sum(ws, bs) == Xor(FoldWords(5381, ws), TailHash(5381, bs))
  {
    hide FoldWords, TailHash, Xor;
  }

  /**
    The bytes after the last word: what they contribute starts from 5381, and each further byte is added, as a signed
    char, to 33 times what the bytes before it gave.
   */
  lemma {:induction false} ByteMixedIn(ws: seq<bv64>, bs: seq<bv8>, b: bv8, h: bv64, c: bv64, h': bv64)
    requires bs == [] ==> h == 5381
    requires bs != [] ==> Sum(ws, bs) == Xor(Sum(ws, []), h)
    requires ByteStep(h, b, c, h')
    ensures Sum(ws, bs + [b]) == Xor(Sum(ws, []), h')
  {
    hide Sum, FoldWords, TailHash, Append, Xor, ByteStep;
    SumParts(ws, bs);
    SumParts(ws, bs + [b]);
    TailSnoc(5381, bs, b);
    AppendIs(h, b, c, h');
    if bs == [] {
      TailOfNone();
    } else {
      XorSame(Sum(ws, []), TailHash(5381, bs), h);
    }
  }

  lemma TailOfNone()
    ensures TailHash(5381, []) == 5381
  {
  }

  lemma XorSame(f: bv64, t: bv64, h: bv64)
    requires Xor(f, t) == Xor(f, h)
    ensures t == h
  {
    hide Xor;
    XorComm(f, t);
    XorComm(f, h);
    XorUndo(t, f);
    XorUndo(h, f);
  }

  /** Known values: one word, a word whose high half is dropped, two words, and one byte of either sign. */
  lemma {:induction false} KnownSums()
    ensures Sum([1], []) == 0x514e_3db2
    ensures Sum([0xffff_ffff_dead_beef], []) == 0x0de5_d3ac
    ensures Sum([1, 2], []) == 0x61ba_feb4
    ensures Sum([], [97]) == 0x2_a303
    ensures Sum([], [255]) == 0x2_a0a1
  {
    hide Sum;
    var none: seq<bv64>, nothing: seq<bv8> := [], [];
    assert none + [1] == [1] && none + [0xffff_ffff_dead_beef] == [0xffff_ffff_dead_beef];
    assert [1] + [2 as bv64] == [1, 2];
    assert nothing + [97] == [97] && nothing + [255] == [255];
    WordMixedIn(none, 1, 0x0000_0001, 0x0000_0001, 0x85eb_ca6b, 0x85ef_e535, 0x514e_79f9, 0x514e_28b7);
    WordMixedIn(none, 0xffff_ffff_dead_beef,
                0xdead_beef, 0xdead_6042, 0x8701_4f96, 0x8705_779c, 0x0de5_cb4c, 0x0de5_c6a9);
    WordMixedIn([1], 2, 0x0000_0002, 0x0000_0002, 0x0bd7_94d6, 0x0bd7_ca6a, 0x30f4_f3f2, 0x30f4_c306);
    ByteMixedIn(none, nothing, 97, 5381, 97, 177670);
    ByteMixedIn(none, nothing, 255, 5381, 0xffff_ffff_ffff_ffff, 177572);
  }

  // ---------------------------------------------------------------- file buffers

  /** `checksum` of the words of a buffer after the first, as a loop. */
  method ComputeChecksum(buf: array<bv64>) returns (sum: bv64)
    requires buf.Length > 0
    ensures sum == Sum(buf[1..], [])
  {
    sum := 5381;
    ghost var ws := buf[1..];
    var i := 1;
    while i < buf.Length
      invariant 1 <= i <= buf.Length
      invariant FoldWords(sum, ws[i - 1..]) == FoldWords(5381, ws)
    {
      assert ws[i - 1..][0] == buf[i] && ws[i - 1..][1..] == ws[i..];
      hide Xor, WordHash;
      sum := Xor(sum, WordHash(buf[i]));
      i := i + 1;
    }
    assert ws[i - 1..] == [];
  }

  /** A buffer whose first word is the checksum of the rest. */
  predicate Sealed(ws: seq<bv64>)
  {
    |ws| > 0 && ws[0] == Sum(ws[1..], [])
  }

  /** `fileBuffer_write`: the checksum goes into the first word, and the whole buffer to disk. */
  method WriteBuffer(buf: array<bv64>) returns (disk: seq<bv64>)
    requires buf.Length > 0
    modifies buf
    ensures disk == buf[..] == old(buf[..])[0 := Sum(old(buf[1..]), [])]
    ensures Sealed(disk)
  {
    hide Sum;
    var sum := ComputeChecksum(buf);
    ghost var rest := buf[1..];
    buf[0] := sum;
    disk := buf[..];
    assert disk[1..] == rest;
  }

  /** `fileBuffer_read`: 0 if the stored checksum matches, -1 otherwise; the bytes arrive either way. */
  method ReadBuffer(disk: seq<bv64>, buf: array<bv64>) returns (status: int)
    requires buf.Length == |disk| > 0
    modifies buf
    ensures buf[..] == disk
    ensures status == if Sealed(disk) then 0 else -1
  {
    forall i | 0 <= i < buf.Length {
      buf[i] := disk[i];
    }
    assert buf[..] == disk;
    hide Sum;
    assert buf[1..] == disk[1..];
    var sum := ComputeChecksum(buf);
    status := if buf[0] == sum then 0 else -1;
  }

  /**
    What a read accepts after one word of a written buffer has changed on disk: a change of the checksum itself is
    always caught, a change of a data word exactly when it touches the lower half.
   */
  lemma CorruptionCaught(disk: seq<bv64>, k: nat, v: bv64)
    requires Sealed(disk) && k < |disk| && v != disk[k]
    ensures Sealed(disk[k := v]) <==> k > 0 && Low(disk[k]) == Low(v)
  {
    var ws := disk[1..];
    if k == 0 {
      assert disk[0 := v][1..] == ws;
    } else {
      assert disk[k := v][1..] == ws[k - 1 := v];
      SingleWordDetected(ws, [], k - 1, v);
      hide Sum, Low;
    }
  }
}

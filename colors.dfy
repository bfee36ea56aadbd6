/** src/lib/utils/colors.ts: the background colour of an entry, picked from a
    fixed list by a 32-bit hash of the entry's id. */
module Colors {

  const BackgroundColors: seq<string> := [
    "bg-blue-100", "bg-green-100", "bg-purple-100", "bg-pink-100", "bg-yellow-100",
    "bg-indigo-100", "bg-red-100", "bg-orange-100", "bg-teal-100", "bg-cyan-100"
  ]

  const Two32: int := 0x1_0000_0000
  const Two31: int := 0x8000_0000

  /** A UTF-16 code unit, what `charCodeAt` returns. */
  type CodeUnit = c: int | 0 <= c < 0x1_0000

  /** The code units of a string as JavaScript stores it: a character above the
      Basic Multilingual Plane takes a surrogate pair. */
  function Utf16(s: string): (r: seq<CodeUnit>)
    ensures |r| >= |s|
    ensures (forall i | 0 <= i < |s| :: s[i] as int < 0x1_0000) ==> r == seq(|s|, i requires 0 <= i < |s| => s[i] as int)
  {
    if s == [] then []
    else
      var c := s[|s| - 1] as int;
      var last := if c < 0x1_0000 then [c as CodeUnit]
                  else [(0xD800 + (c - 0x1_0000) / 0x400) as CodeUnit, (0xDC00 + (c - 0x1_0000) % 0x400) as CodeUnit];
      Utf16(s[..|s| - 1]) + last
  }

  predicate IsInt32(x: int) {
    -Two31 <= x < Two31
  }

  /** ECMAScript's ToInt32: the signed 32-bit integer congruent to `x` modulo 2^32. */
  function Int32(x: int): (r: int)
    ensures IsInt32(r)
    ensures r % Two32 == x % Two32
    ensures IsInt32(x) ==> r == x
  {
    var m := x % Two32;
    if m >= Two31 then m - Two32 else m
  }

  /** `h << 5` on a 32-bit integer: the bits shifted out of the word are lost. */
  function ShiftLeft5(h: int): (r: int)
    requires IsInt32(h)
    ensures IsInt32(r) && r % Two32 == (32 * h) % Two32
  {
    Int32(h * 32)
  }

  /** One loop step: `hash = (hash << 5) - hash + char`, then `hash & hash`, which
      is ToInt32 of the sum. */
  function Step(h: int, c: CodeUnit): (r: int)
    requires IsInt32(h)
    ensures IsInt32(r)
  {
    Int32(ShiftLeft5(h) - h + c)
  }

  /** The value of `hash` after the loop has read the code units `units`. */
  function Hash(units: seq<CodeUnit>): (h: int)
    ensures IsInt32(h)
  {
    if units == [] then 0 else Step(Hash(units[..|units| - 1]), units[|units| - 1])
  }

  function Abs(x: int): nat {
    if x < 0 then -x else x
  }

  /** `getBackgroundColor`: it hashes the id's code units one at a time, keeping
      the hash a signed 32-bit integer, and uses the hash's magnitude modulo the
      list's length as the index. The result is always one of the listed colours,
      and the empty id gets the first one. */
  method GetBackgroundColor(entryId: string) returns (color: string)
    ensures color == BackgroundColors[Abs(Hash(Utf16(entryId))) % |BackgroundColors|]
    ensures color in BackgroundColors
    ensures entryId == "" ==> color == "bg-blue-100"
  {
    var units := Utf16(entryId);
    var hash := 0;
    for i := 0 to |units|
      invariant IsInt32(hash)
      invariant hash == Hash(units[..i])
    {
      var code := units[i];
      hash := ShiftLeft5(hash) - hash + code;
      hash := Int32(hash);
      assert units[..i + 1][..i] == units[..i];
    }
    assert units[..|units|] == units;
    color := BackgroundColors[Abs(hash) % |BackgroundColors|];
  }

  /** The unbounded polynomial hash `sum of c_i * 31^(n-1-i)` the loop computes
      before truncation. */
  function PolyHash(units: seq<CodeUnit>): int {
    if units == [] then 0 else 31 * PolyHash(units[..|units| - 1]) + units[|units| - 1]
  }

  /** Adding a multiple of 2^32 does not change a residue. */
  lemma ModMultiple(x: int, k: int)
    ensures (x + Two32 * k) % Two32 == x % Two32
  {
  }

  /** Values that agree modulo 2^32 keep agreeing after one hash step. */
  lemma StepCongruent(h: int, p: int, c: CodeUnit)
    requires h % Two32 == p % Two32
    ensures (31 * h + c) % Two32 == (31 * p + c) % Two32
  {
    var d := h / Two32 - p / Two32;
    assert h == p + Two32 * d;
    assert 31 * h + c == (31 * p + c) + Two32 * (31 * d);
    ModMultiple(31 * p + c, 31 * d);
  }

  /** Before truncation a step is congruent to `31 * h + c`: the shift is
      congruent to `32 * h`. */
  lemma StepIsLinear(h: int, c: CodeUnit)
    requires IsInt32(h)
    ensures (ShiftLeft5(h) - h + c) % Two32 == (31 * h + c) % Two32
  {
    var k := (ShiftLeft5(h) - 32 * h) / Two32;
    assert ShiftLeft5(h) == 32 * h + Two32 * k;
    ModMultiple(31 * h + c, k);
  }

  /** Truncating after every step gives the truncation of the unbounded
      polynomial hash: the loop's `hash` is `ToInt32(PolyHash)`. */
  lemma {:induction false} HashIsTruncatedPolyHash(units: seq<CodeUnit>)
    ensures Hash(units) == Int32(PolyHash(units))
  {
    if units != [] {
      var init, c := units[..|units| - 1], units[|units| - 1];
      HashIsTruncatedPolyHash(init);
      var h := Hash(init);
      StepIsLinear(h, c);
      StepCongruent(h, PolyHash(init), c);
      Int32Congruent(ShiftLeft5(h) - h + c, PolyHash(units));
    }
  }

  /** ToInt32 depends only on the residue modulo 2^32. */
  lemma Int32Congruent(x: int, y: int)
    requires x % Two32 == y % Two32
    ensures Int32(x) == Int32(y)
  {
  }

  /** Ids whose polynomial hashes agree modulo 2^32 get the same hash, and so the
      same colour. */
  lemma SameResidueSameColor(a: seq<CodeUnit>, b: seq<CodeUnit>)
    requires PolyHash(a) % Two32 == PolyHash(b) % Two32
    ensures Hash(a) == Hash(b)
  {
    HashIsTruncatedPolyHash(a);
    HashIsTruncatedPolyHash(b);
    Int32Congruent(PolyHash(a), PolyHash(b));
  }
}

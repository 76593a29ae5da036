/** PlayerUtils: the text that draws a player's face with the player-head
    font, the colour of each face pixel, the cache key of a player name,
    and the least-recently-used caches in front of the network look-ups. */
module PlayerHeads {
  import opened Common

  // ---------------------------------------------------------------------
  // Colours

  /** An upper-case hexadecimal digit. */
  function HexDigit(d: int): (c: char)
    requires 0 <= d < 16
    ensures IsHexDigit(c)
  {
    "0123456789ABCDEF"[d]
  }

  predicate IsHexDigit(c: char) {
    '0' <= c <= '9' || 'A' <= c <= 'F'
  }

  /** The value of an upper-case hexadecimal digit. */
  function HexValue(c: char): (d: int)
    requires IsHexDigit(c)
    ensures 0 <= d < 16
  {
    if c <= '9' then c as int - '0' as int else c as int - 'A' as int + 10
  }

  lemma HexValueOfDigit(d: int)
    requires 0 <= d < 16
    ensures HexValue(HexDigit(d)) == d
  {
  }

  function Pow16(w: nat): (r: nat)
    ensures r >= 1
  {
    if w == 0 then 1 else 16 * Pow16(w - 1)
  }

  /** `n` in `w` upper-case hexadecimal digits, zero-padded, most
      significant first. */
  function HexDigits(n: nat, w: nat): (r: string)
    ensures |r| == w
    ensures forall k :: 0 <= k < |r| ==> IsHexDigit(r[k])
  {
    if w == 0 then [] else HexDigits(n / 16, w - 1) + [HexDigit(n % 16)]
  }

  /** The value of a string of hexadecimal digits. */
  function ParseHex(s: string): (n: nat)
    requires forall k :: 0 <= k < |s| ==> IsHexDigit(s[k])
  {
    if s == [] then 0 else ParseHex(s[..|s| - 1]) * 16 + HexValue(s[|s| - 1])
  }

  /** Writing a number that fits in `w` digits and reading it back gives
      the number. */
  lemma {:induction false} HexRoundTrip(n: nat, w: nat)
    requires n < Pow16(w)
    ensures ParseHex(HexDigits(n, w)) == n
  {
    if w > 0 {
      var s := HexDigits(n, w);
      assert s[..|s| - 1] == HexDigits(n / 16, w - 1);
      assert n / 16 < Pow16(w - 1);
      HexRoundTrip(n / 16, w - 1);
      HexValueOfDigit(n % 16);
    }
  }

  /** String.format("#%06X", rgb & 0xFFFFFF): the low 24 bits of the pixel
      (Dafny's `%` keeps them for negative ints as `&` does) as six
      upper-case digits. */
  function FormatColour(rgb: int): (r: string)
    ensures IsColour(r)
  {
    "#" + HexDigits(rgb % 0x100_0000, 6)
  }

  /** What FormatColour produces: '#' and six upper-case hex digits. */
  predicate IsColour(c: string) {
    |c| == 7 && c[0] == '#' && forall k :: 1 <= k < 7 ==> IsHexDigit(c[k])
  }

  /** The colour text gives back the pixel's low 24 bits. */
  lemma FormatColourRoundTrip(rgb: int)
    ensures ParseHex(FormatColour(rgb)[1..]) == rgb % 0x100_0000
  {
    assert FormatColour(rgb)[1..] == HexDigits(rgb % 0x100_0000, 6);
    assert Pow16(6) == 0x100_0000;
    HexRoundTrip(rgb % 0x100_0000, 6);
  }

  /** The alpha byte of a 32-bit ARGB int (`rgb >>> 24`). */
  function Alpha(rgb: int): (a: int)
    ensures 0 <= a < 256
  {
    (rgb % 0x1_0000_0000) / 0x100_0000
  }

  /** The pixel a face position shows: the overlay's pixel when the skin
      has an overlay layer (64 pixels high) and that pixel is not fully
      transparent, else the face's. */
  function PixelColour(face: int, overlay: int, hasOverlay: bool): (r: int)
    ensures r == overlay || r == face
    ensures r == overlay <== hasOverlay && Alpha(overlay) != 0
    ensures !hasOverlay || Alpha(overlay) == 0 ==> r == face
  {
    if hasOverlay && Alpha(overlay) != 0 then overlay else face
  }

  /** A face layer as 8 columns of 8 ARGB pixels, indexed [x][y]. */
  predicate IsLayer(g: seq<seq<int>>) {
    |g| == 8 && forall x :: 0 <= x < 8 ==> |g[x]| == 8
  }

  /** The colour of face position `k` (column k / 8, row k % 8). */
  function FaceColour(face: seq<seq<int>>, overlay: seq<seq<int>>, skinHeight: int, k: int): (r: string)
    requires IsLayer(face) && IsLayer(overlay) && 0 <= k < 64
    ensures IsColour(r)
  {
    FormatColour(PixelColour(face[k / 8][k % 8], overlay[k / 8][k % 8], skinHeight >= 64))
  }

  /** The pixel loop of getPixelColorsFromSkin over the face (the 8x8
      square at (8, 8)) and the overlay (at (40, 8)): column by column,
      each column top to bottom, into a 64-slot array. */
  method PixelColours(face: seq<seq<int>>, overlay: seq<seq<int>>, skinHeight: int) returns (colors: array<string>)
    requires IsLayer(face) && IsLayer(overlay)
    ensures fresh(colors) && colors.Length == 64
    ensures forall k :: 0 <= k < 64 ==> colors[k] == FaceColour(face, overlay, skinHeight, k)
  {
    colors := new string[64](_ => "");
    var hasOverlay := skinHeight >= 64;
    var idx := 0;
    for i := 0 to 8
      invariant idx == 8 * i
      invariant forall k :: 0 <= k < idx ==> colors[k] == FaceColour(face, overlay, skinHeight, k)
    {
      for j := 0 to 8
        invariant idx == 8 * i + j
        invariant forall k :: 0 <= k < idx ==> colors[k] == FaceColour(face, overlay, skinHeight, k)
      {
        var rgb := face[i][j];
        if hasOverlay {
          var overlayRgb := overlay[i][j];
          rgb := if Alpha(overlayRgb) != 0 then overlayRgb else rgb;
        }
        assert idx / 8 == i && idx % 8 == j;
        colors[idx] := FormatColour(rgb);
        idx := idx + 1;
      }
    }
  }

  // ---------------------------------------------------------------------
  // The head text

  const FontStart: string := "<font:minecraft:playerhead>"
  const FontEnd: string := "<font:minecraft:default>"

  /** The glyph of face position `i`: the pixel character for its row
      (U+F001 + i mod 8), then U+F101 after the last row of a column or
      U+F102 after any other row, and nothing after the very last. */
  function Glyph(i: int): (r: string)
    requires 0 <= i < 64
    ensures |r| == if i == 63 then 1 else 2
    ensures r[0] as int == 0xF001 + i % 8
    ensures i != 63 ==> r[1] == if i % 8 == 7 then '\U{F101}' else '\U{F102}'
  {
    var base := (0xF001 + i % 8) as char;
    if i == 63 then [base] else if i % 8 == 7 then [base, '\U{F101}'] else [base, '\U{F102}']
  }

  /** One face position: its colour tag, then its glyph. */
  function Segment(colour: string, i: int): string
    requires 0 <= i < 64 && colour != []
  {
    "<#" + colour[1..] + ">" + Glyph(i)
  }

  /** The segments of the first `n` face positions. */
  function Segments(colours: seq<string>, n: nat): string
    requires n <= 64 && n <= |colours|
    requires forall k :: 0 <= k < n ==> colours[k] != []
  {
    if n == 0 then [] else Segments(colours, n - 1) + Segment(colours[n - 1], n - 1)
  }

  /** The head text for 64 colours. */
  function HeadText(colours: seq<string>): string
    requires |colours| >= 64
    requires forall k :: 0 <= k < 64 ==> colours[k] != []
  {
    FontStart + Segments(colours, 64) + FontEnd
  }

  /** Where face position `i`'s six colour digits sit in the head text. */
  function ColourOffset(i: int): int {
    |FontStart| + 11 * i + 2
  }

  /** With well-formed colours every segment but the last is 11
      characters long, and position `i`'s digits sit at 11 * i + 2. */
  lemma {:induction false} SegmentsLayout(colours: seq<string>, n: nat)
    requires n <= 63 && n <= |colours|
    requires forall k :: 0 <= k < n ==> colours[k] != []
    requires forall k :: 0 <= k < n ==> IsColour(colours[k])
    ensures |Segments(colours, n)| == 11 * n
    ensures forall i :: 0 <= i < n ==> Segments(colours, n)[11 * i + 2..11 * i + 8] == colours[i][1..]
  {
    if n > 0 {
      SegmentsLayout(colours, n - 1);
      var a := Segments(colours, n - 1);
      var b := Segment(colours[n - 1], n - 1);
      assert Segments(colours, n) == a + b;
      assert |b| == 11;
      forall i | 0 <= i < n
        ensures (a + b)[11 * i + 2..11 * i + 8] == colours[i][1..]
      {
        if i < n - 1 {
          assert (a + b)[11 * i + 2..11 * i + 8] == a[11 * i + 2..11 * i + 8];
        } else {
          assert (a + b)[11 * i + 2..11 * i + 8] == b[2..8];
        }
      }
    }
  }

  /** The head text carries every face colour, in order, at a fixed place:
      reading the six digits at ColourOffset(i) gives back colour i. */
  lemma HeadTextCarriesColours(colours: seq<string>)
    requires |colours| >= 64
    requires forall k :: 0 <= k < 64 ==> colours[k] != []
    requires forall k :: 0 <= k < 64 ==> IsColour(colours[k])
    ensures |HeadText(colours)| == |FontStart| + 11 * 63 + 10 + |FontEnd|
    ensures forall i :: 0 <= i < 64 ==>
              HeadText(colours)[ColourOffset(i)..ColourOffset(i) + 6] == colours[i][1..]
  {
    SegmentsLayout(colours, 63);
    var a := Segments(colours, 63);
    var b := Segment(colours[63], 63);
    assert Segments(colours, 64) == a + b;
    assert |b| == 10;
    var h := HeadText(colours);
    assert h == FontStart + (a + b) + FontEnd;
    forall i | 0 <= i < 64
      ensures h[ColourOffset(i)..ColourOffset(i) + 6] == colours[i][1..]
    {
      if i < 63 {
        assert h[ColourOffset(i)..ColourOffset(i) + 6] == a[11 * i + 2..11 * i + 8];
      } else {
        assert h[ColourOffset(i)..ColourOffset(i) + 6] == b[2..8];
      }
    }
  }

  /** The StringBuilder loop of getPlayerHead. */
  method BuildHead(colours: seq<string>) returns (s: string)
    requires |colours| >= 64
    requires forall k :: 0 <= k < 64 ==> colours[k] != []
    ensures s == HeadText(colours)
  {
    s := FontStart;
    for i := 0 to 64
      invariant s == FontStart + Segments(colours, i)
    {
      var base := (0xF001 + i % 8) as char;
      var glyph := if i == 63 then [base] else if i % 8 == 7 then [base, '\U{F101}'] else [base, '\U{F102}'];
      var hex := colours[i][1..];
      assert glyph == Glyph(i);
      var segment := "<#" + hex + ">" + glyph;
      assert segment == Segment(colours[i], i);
      assert FontStart + Segments(colours, i + 1) == s + segment;
      s := s + segment;
    }
    s := s + FontEnd;
  }

  /** What getPlayerHead computes once past the cache: nothing without a
      skin url, without 64 colours, or when a colour is empty (substring(1)
      throws and the exception is caught); otherwise the head text. */
  function HeadFor(skinUrl: Option<string>, colours: Option<seq<string>>): (r: Option<string>)
    ensures r.Some? <==> skinUrl.Some? && colours.Some? && |colours.value| >= 64
                         && forall k :: 0 <= k < 64 ==> colours.value[k] != []
  {
    if skinUrl.None? then None
    else if colours.None? || |colours.value| < 64 then None
    else if exists k :: 0 <= k < 64 && colours.value[k] == [] then None
    else Some(HeadText(colours.value))
  }

  // ---------------------------------------------------------------------
  // Player names

  /** String.toLowerCase on ASCII letters. */
  function Lower(s: string): (r: string)
    ensures |r| == |s|
    ensures forall k :: 0 <= k < |s| ==> r[k] == LowerChar(s[k])
  {
    if s == [] then [] else [LowerChar(s[0])] + Lower(s[1..])
  }

  function LowerChar(c: char): (r: char)
    ensures c <= ' ' <==> r <= ' '
    ensures !('A' <= r <= 'Z')
  {
    if 'A' <= c <= 'Z' then (c as int + 32) as char else c
  }

  /** String.trim: every leading and trailing character up to ' ' is
      dropped. */
  function TrimStart(s: string): (r: string)
    ensures r == [] || r[0] > ' '
    ensures |r| <= |s| && r == s[|s| - |r|..]
  {
    if s != [] && s[0] <= ' ' then TrimStart(s[1..]) else s
  }

  function TrimEnd(s: string): (r: string)
    ensures r == [] || r[|r| - 1] > ' '
    ensures |r| <= |s| && r == s[..|r|]
  {
    if s != [] && s[|s| - 1] <= ' ' then TrimEnd(s[..|s| - 1]) else s
  }

  function Trim(s: string): string {
    TrimEnd(TrimStart(s))
  }

  /** The uuid cache key of a player name: lower-cased, then trimmed. */
  function Key(name: string): string {
    Trim(Lower(name))
  }

  /** A string with no blank at either end is its own trim. */
  lemma TrimmedFixed(s: string)
    requires s == [] || (s[0] > ' ' && s[|s| - 1] > ' ')
    ensures Trim(s) == s
  {
  }

  /** Trimming twice is trimming once. */
  lemma TrimIdempotent(s: string)
    ensures Trim(Trim(s)) == Trim(s)
  {
    var t := Trim(s);
    if t != [] {
      var u := TrimStart(s);
      assert t == u[..|t|];
      assert t[0] == u[0];
    }
    TrimmedFixed(t);
  }

  /** Lower-casing twice is lower-casing once. */
  lemma LowerIdempotent(s: string)
    ensures Lower(Lower(s)) == Lower(s)
  {
  }

  /** Trimming a lower-cased string leaves it lower-cased. */
  lemma LowerOfTrimmed(s: string)
    requires Lower(s) == s
    ensures Lower(TrimStart(s)) == TrimStart(s) && Lower(TrimEnd(s)) == TrimEnd(s)
  {
    var a := TrimStart(s);
    assert a == s[|s| - |a|..];
    forall k | 0 <= k < |a|
      ensures LowerChar(a[k]) == a[k]
    {
      assert a[k] == s[|s| - |a| + k];
    }
    var b := TrimEnd(s);
    forall k | 0 <= k < |b|
      ensures LowerChar(b[k]) == b[k]
    {
      assert b[k] == s[k];
    }
  }

  /** A key is its own key: looking a key up again finds the same entry. */
  lemma KeyIdempotent(name: string)
    ensures Key(Key(name)) == Key(name)
  {
    var l := Lower(name);
    LowerIdempotent(name);
    LowerOfTrimmed(l);
    LowerOfTrimmed(TrimStart(l));
    TrimIdempotent(l);
  }

  /** Names that differ only in the case of their letters share a key. */
  lemma KeyIgnoresCase(name: string)
    ensures Key(Lower(name)) == Key(name)
  {
    LowerIdempotent(name);
  }

  /** Every character is a blank (at most ' '). */
  predicate AllBlank(s: string) {
    forall k :: 0 <= k < |s| ==> s[k] <= ' '
  }

  /** A string is blank when its first character and the rest are. */
  lemma AllBlankCons(s: string)
    requires s != []
    ensures AllBlank(s) <==> s[0] <= ' ' && AllBlank(s[1..])
  {
    if s[0] <= ' ' && AllBlank(s[1..]) {
      forall k | 0 <= k < |s|
        ensures s[k] <= ' '
      {
        if k > 0 {
          assert s[k] == s[1..][k - 1];
        }
      }
    }
  }

  /** The start of a string trims away entirely exactly when it is all
      blanks. */
  lemma {:induction false} TrimStartEmpty(s: string)
    ensures TrimStart(s) == [] <==> AllBlank(s)
  {
    if s != [] {
      AllBlankCons(s);
      if s[0] <= ' ' {
        TrimStartEmpty(s[1..]);
      }
    }
  }

  /** Lower-casing keeps exactly the blanks blank. */
  lemma AllBlankLower(s: string)
    ensures AllBlank(Lower(s)) <==> AllBlank(s)
  {
    if AllBlank(Lower(s)) {
      forall k | 0 <= k < |s|
        ensures s[k] <= ' '
      {
        assert Lower(s)[k] <= ' ';
      }
    }
  }

  /** A name is blank (its trim is empty) exactly when its key is empty:
      the blank check and the key agree. */
  lemma BlankIffEmptyKey(name: string)
    ensures Trim(name) == [] <==> Key(name) == []
  {
    TrimStartEmpty(name);
    TrimStartEmpty(Lower(name));
    AllBlankLower(name);
    var a := TrimStart(name);
    if a != [] {
      assert TrimEnd(a) != [] by {
        assert a[0] > ' ';
        TrimEndKeepsLast(a, 0);
      }
    }
    var b := TrimStart(Lower(name));
    if b != [] {
      assert TrimEnd(b) != [] by {
        assert b[0] > ' ';
        TrimEndKeepsLast(b, 0);
      }
    }
  }

  /** TrimEnd never drops a non-blank character. */
  lemma TrimEndKeepsLast(s: string, k: int)
    requires 0 <= k < |s| && s[k] > ' '
    ensures |TrimEnd(s)| > k
  {
    if s != [] && s[|s| - 1] <= ' ' {
      TrimEndKeepsLast(s[..|s| - 1], k);
    }
  }

  // ---------------------------------------------------------------------
  // Least-recently-used caches

  /** LRUCache: a LinkedHashMap in access order that drops its eldest
      entry whenever an insertion takes it over `maxSize` entries. */
  class LruCache<K(==,!new), V> {
    const maxSize: int
    /** The keys from least to most recently used. */
    var order: seq<K>
    var entries: map<K, V>

    ghost predicate Valid()
      reads this
    {
      (forall i, j :: 0 <= i < j < |order| ==> order[i] != order[j])
      && (forall k :: k in entries <==> k in order)
      && |order| == |entries|
      && (|entries| <= maxSize || |entries| == 0)
    }

    constructor(maxSize: int)
      ensures Valid() && this.maxSize == maxSize && order == [] && entries == map[]
    {
      this.maxSize := maxSize;
      order := [];
      entries := map[];
    }

    /** get: the value, if any; a found key becomes the most recently
        used. */
    method Get(k: K) returns (r: Option<V>)
      requires Valid()
      modifies this`order
      ensures Valid()
      ensures r == if k in entries then Some(entries[k]) else None
      ensures k in entries ==> order == Without(old(order), k) + [k]
      ensures k !in entries ==> order == old(order)
    {
      if k in entries {
        WithoutKeeps(order, k);
        DistinctSnoc(Without(order, k), k);
        order := Without(order, k) + [k];
        return Some(entries[k]);
      }
      return None;
    }

    /** put: the entry is written and its key becomes the most recently
        used; when the key was new and the cache now holds more than
        `maxSize` entries, the least recently used entry is dropped. */
    method Put(k: K, v: V)
      requires Valid()
      modifies this`order, this`entries
      ensures Valid()
      ensures k in old(entries) ==> entries == old(entries)[k := v] && order == Without(old(order), k) + [k]
      ensures k !in old(entries) && |old(entries)| + 1 <= maxSize ==>
                entries == old(entries)[k := v] && order == old(order) + [k]
      ensures k !in old(entries) && |old(entries)| + 1 > maxSize ==>
                entries == old(entries)[k := v] - {(old(order) + [k])[0]} && order == (old(order) + [k])[1..]
    {
      if k in entries {
        assert k in order;
        WithoutKeeps(order, k);
        DistinctSnoc(Without(order, k), k);
        entries := entries[k := v];
        order := Without(order, k) + [k];
        return;
      }
      DistinctSnoc(order, k);
      entries := entries[k := v];
      order := order + [k];
      assert forall x :: x in order <==> x in old(order) || x == k;
      if |entries| > maxSize {
        var eldest := order[0];
        forall x | x in order[1..]
          ensures x != eldest
        {
          var i :| 0 <= i < |order[1..]| && order[1..][i] == x;
          assert order[i + 1] == x;
        }
        entries := entries - {eldest};
        order := order[1..];
      }
    }
  }

  /** Appending a new element keeps a list without repeats. */
  lemma DistinctSnoc<K>(s: seq<K>, x: K)
    requires forall i, j :: 0 <= i < j < |s| ==> s[i] != s[j]
    requires x !in s
    ensures forall i, j :: 0 <= i < j < |s + [x]| ==> (s + [x])[i] != (s + [x])[j]
  {
    forall i, j | 0 <= i < j < |s + [x]|
      ensures (s + [x])[i] != (s + [x])[j]
    {
      assert (s + [x])[i] == s[i];
      if j == |s| {
        assert s[i] in s;
      }
    }
  }

  /** The keys of `s` other than `k`, in order. */
  function Without<K(==,!new)>(s: seq<K>, k: K): (r: seq<K>)
    ensures forall x :: x in r <==> x in s && x != k
  {
    if s == [] then [] else (if s[0] == k then [] else [s[0]]) + Without(s[1..], k)
  }

  /** Dropping a key from a list without repeats that holds it keeps the
      list without repeats and one shorter. */
  lemma {:induction false} WithoutKeeps<K(!new)>(s: seq<K>, k: K)
    requires forall i, j :: 0 <= i < j < |s| ==> s[i] != s[j]
    ensures forall i, j :: 0 <= i < j < |Without(s, k)| ==> Without(s, k)[i] != Without(s, k)[j]
    ensures k in s ==> |Without(s, k)| == |s| - 1
    ensures k !in s ==> Without(s, k) == s
  {
    if s != [] {
      WithoutKeeps(s[1..], k);
      var rest := Without(s[1..], k);
      assert s[0] !in s[1..] by {
        forall i | 0 <= i < |s[1..]|
          ensures s[1..][i] != s[0]
        {
          assert s[1..][i] == s[i + 1];
        }
      }
      if s[0] != k {
        var r := [s[0]] + rest;
        forall i, j | 0 <= i < j < |r|
          ensures r[i] != r[j]
        {
          if i == 0 {
            assert r[j] == rest[j - 1] && rest[j - 1] in rest;
          } else {
            assert r[i] == rest[i - 1] && r[j] == rest[j - 1];
          }
        }
      }
    }
  }

  /** When the cache may hold anything at all, the entry just put
      survives the eviction. */
  lemma PutKeeps<K(!new), V>(oldEntries: map<K, V>, oldOrder: seq<K>, k: K, v: V, maxSize: int,
                         entries: map<K, V>, order: seq<K>)
    requires (forall i, j :: 0 <= i < j < |oldOrder| ==> oldOrder[i] != oldOrder[j])
             && (forall x :: x in oldEntries <==> x in oldOrder) && |oldOrder| == |oldEntries|
    requires k in oldEntries ==> entries == oldEntries[k := v]
    requires k !in oldEntries && |oldEntries| + 1 <= maxSize ==> entries == oldEntries[k := v]
    requires k !in oldEntries && |oldEntries| + 1 > maxSize ==>
               entries == oldEntries[k := v] - {(oldOrder + [k])[0]}
    ensures maxSize >= 1 ==> k in entries && entries[k] == v
  {
    if k !in oldEntries && |oldEntries| + 1 > maxSize && maxSize >= 1 {
      assert oldOrder != [] && (oldOrder + [k])[0] == oldOrder[0] && oldOrder[0] in oldEntries;
    }
  }

  // ---------------------------------------------------------------------
  // The look-ups

  /** The static state of PlayerUtils: its caches (1000 entries each) and
      the heads being loaded. */
  class PlayerHeadCaches {
    const headCache: LruCache<Uuid, Option<string>>
    const uuidCache: LruCache<string, Option<Uuid>>
    var loadingHeads: set<Uuid>

    ghost predicate Valid()
      reads this, headCache, uuidCache
    {
      headCache.Valid() && uuidCache.Valid()
    }

    constructor()
      ensures Valid() && fresh(headCache) && fresh(uuidCache)
      ensures headCache.maxSize == 1000 && uuidCache.maxSize == 1000
      ensures headCache.entries == map[] && uuidCache.entries == map[] && loadingHeads == {}
    {
      headCache := new LruCache(1000);
      uuidCache := new LruCache(1000);
      loadingHeads := {};
    }

    /** getPlayerHead, with the skin url and the face colours the network
        would give as inputs: no uuid gives nothing; a cached answer is
        returned as it is; a head already being loaded gives nothing;
        otherwise the head is computed, cached (an empty answer too) and
        returned, and the uuid is no longer marked as loading. */
    method GetPlayerHead(uuid: Option<Uuid>, skinUrl: Option<string>, colours: Option<seq<string>>)
      returns (r: Option<string>)
      requires Valid()
      modifies headCache`order, headCache`entries, this`loadingHeads
      ensures Valid() && loadingHeads == old(loadingHeads)
      ensures uuid.None? ==> r.None? && headCache.entries == old(headCache.entries)
      ensures uuid.Some? && uuid.value in old(headCache.entries) ==>
                r == old(headCache.entries[uuid.value]) && headCache.entries == old(headCache.entries)
      ensures uuid.Some? && uuid.value !in old(headCache.entries) && uuid.value in old(loadingHeads) ==>
                r.None? && headCache.entries == old(headCache.entries)
      ensures uuid.Some? && uuid.value !in old(headCache.entries) && uuid.value !in old(loadingHeads) ==>
                r == HeadFor(skinUrl, colours)
                && (headCache.maxSize >= 1 ==> uuid.value in headCache.entries && headCache.entries[uuid.value] == r)
    {
      if uuid.None? {
        return None;
      }
      var u := uuid.value;
      var cached := headCache.Get(u);
      if cached.Some? {
        return cached.value;
      }
      if u in loadingHeads {
        return None;
      }
      r := LoadHead(u, skinUrl, colours);
    }

    /** The loading part of getPlayerHead: the uuid is marked as loading,
        the head is computed and cached, and the mark is cleared. */
    method LoadHead(u: Uuid, skinUrl: Option<string>, colours: Option<seq<string>>) returns (r: Option<string>)
      requires Valid() && u !in loadingHeads
      modifies headCache`order, headCache`entries, this`loadingHeads
      ensures Valid() && loadingHeads == old(loadingHeads)
      ensures r == HeadFor(skinUrl, colours)
      ensures headCache.maxSize >= 1 ==> u in headCache.entries && headCache.entries[u] == r
    {
      loadingHeads := loadingHeads + {u};
      r := ComputeHead(skinUrl, colours);
      ghost var e0, o0 := headCache.entries, headCache.order;
      headCache.Put(u, r);
      PutKeeps(e0, o0, u, r, headCache.maxSize, headCache.entries, headCache.order);
      loadingHeads := loadingHeads - {u};
    }

    /** The computing part of getPlayerHead. */
    method ComputeHead(skinUrl: Option<string>, colours: Option<seq<string>>) returns (r: Option<string>)
      ensures r == HeadFor(skinUrl, colours)
    {
      if skinUrl.None? {
        return None;
      }
      if colours.None? || |colours.value| < 64 {
        return None;
      }
      var cs := colours.value;
      for k := 0 to 64
        invariant forall k' :: 0 <= k' < k ==> cs[k'] != []
      {
        if cs[k] == [] {
          return None;
        }
      }
      var s := BuildHead(cs);
      return Some(s);
    }

    /** getUUID, with the result of the profile look-up as an input: a
        blank name gives nothing and touches no cache; otherwise the key is
        the lower-cased, trimmed name, a cached answer is returned, and a
        fresh answer is cached under the key and returned. */
    method GetUuid(name: string, fetched: Option<Uuid>) returns (r: Option<Uuid>)
      requires Valid()
      modifies uuidCache`order, uuidCache`entries
      ensures Valid()
      ensures Trim(name) == [] ==> r.None? && uuidCache.entries == old(uuidCache.entries)
      ensures Trim(name) != [] && Key(name) in old(uuidCache.entries) ==>
                r == old(uuidCache.entries[Key(name)]) && uuidCache.entries == old(uuidCache.entries)
      ensures Trim(name) != [] && Key(name) !in old(uuidCache.entries) ==>
                r == fetched
                && (uuidCache.maxSize >= 1 ==> Key(name) in uuidCache.entries && uuidCache.entries[Key(name)] == fetched)
    {
      if Trim(name) == [] {
        return None;
      }
      var key := Key(name);
      var cached := uuidCache.Get(key);
      if cached.Some? {
        return cached.value;
      }
      ghost var e0, o0 := uuidCache.entries, uuidCache.order;
      uuidCache.Put(key, fetched);
      PutKeeps(e0, o0, key, fetched, uuidCache.maxSize, uuidCache.entries, uuidCache.order);
      return fetched;
    }
  }
}

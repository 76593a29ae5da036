/** LeaderboardHologram: the child-hologram layout a leaderboard creates,
    the ranking of its score map, the text of each place, and the update
    that writes those texts into the entry holograms. */
module Leaderboards {
  import opened Common
  import opened Holograms

  // ---------------------------------------------------------------------
  // Options and scores

  datatype LeaderboardType = SimpleText | TopPlayerHead | AllPlayerHeads
  datatype HeadMode = ResourcePack | ItemDisplay
  datatype SortOrder = Descending | Ascending

  /** The options a leaderboard reads when it is built and updated (the
      ones that only drive geometry, colours or number formatting are
      not part of this model). */
  datatype Options = Options(
    placeFormats: seq<string>,
    defaultPlaceFormat: string,
    titleFormat: string,
    footerFormat: string,
    title: string,
    suffix: string,
    leaderboardType: LeaderboardType,
    showEmptyPlaces: bool,
    maxDisplayEntries: nat,
    sortOrder: SortOrder,
    headMode: HeadMode,
    extra: map<Uuid, string>)

  /** PlayerScore: a display name and a score (a Java Number, read as its
      double value). */
  datatype PlayerScore = PlayerScore(name: string, score: real)

  /** One entry of the score map. */
  datatype ScoreEntry = ScoreEntry(uuid: Uuid, player: PlayerScore)

  // ---------------------------------------------------------------------
  // Decimal rendering and the child-hologram ids

  function DigitChar(d: nat): (c: char)
    requires d < 10
    ensures '0' <= c <= '9'
  {
    "0123456789"[d]
  }

  /** String.valueOf of a non-negative int: its decimal digits, without
      leading zeros. */
  function Decimal(n: nat): (r: string)
    ensures |r| >= 1
    ensures n >= 10 ==> |r| >= 2
    ensures forall i :: 0 <= i < |r| ==> '0' <= r[i] <= '9'
  {
    if n < 10 then [DigitChar(n)] else Decimal(n / 10) + [DigitChar(n % 10)]
  }

  /** The last digit of a number's decimal form is its units digit; the
      rest is the decimal form of the number of tens (nothing below 10). */
  lemma DecimalSplit(n: nat)
    ensures Decimal(n)[|Decimal(n)| - 1] == DigitChar(n % 10)
    ensures n < 10 ==> |Decimal(n)| == 1
    ensures n >= 10 ==> Decimal(n)[..|Decimal(n)| - 1] == Decimal(n / 10)
  {
    if n >= 10 {
      var d := Decimal(n);
      assert d == Decimal(n / 10) + [DigitChar(n % 10)];
    }
  }

  /** Distinct digits are distinct characters. */
  lemma DigitCharInjective(a: nat, b: nat)
    requires a < 10 && b < 10 && DigitChar(a) == DigitChar(b)
    ensures a == b
  {
    assert DigitChar(a) as int - '0' as int == a;
    assert DigitChar(b) as int - '0' as int == b;
  }

  /** Distinct numbers are written differently. */
  lemma {:induction false} DecimalInjective(a: nat, b: nat)
    requires Decimal(a) == Decimal(b)
    ensures a == b
    decreases a
  {
    DecimalSplit(a);
    DecimalSplit(b);
    DigitCharInjective(a % 10, b % 10);
    if a >= 10 && b >= 10 {
      DecimalInjective(a / 10, b / 10);
    }
  }

  /** The ids of the entry holograms: `baseId_entry_1` .. `baseId_entry_n`. */
  function EntryIds(baseId: string, n: nat): (r: seq<string>)
    ensures |r| == n
    ensures forall i :: 0 <= i < n ==> r[i] == baseId + "_entry_" + Decimal(i + 1)
  {
    seq(n, i requires 0 <= i => baseId + "_entry_" + Decimal(i + 1))
  }

  /** allTextHolograms, by id: background, header, the entries, footer. */
  function TextIds(baseId: string, n: nat): (r: seq<string>)
    ensures |r| == n + 3
  {
    [baseId + "_background", baseId + "_header"] + EntryIds(baseId, n) + [baseId + "_footer"]
  }

  /** The id of the first-place head, present iff the type is
      TOP_PLAYER_HEAD. */
  function HeadId(baseId: string, t: LeaderboardType): (r: Option<string>)
    ensures r.Some? <==> t == TopPlayerHead
  {
    if t == TopPlayerHead then Some(baseId + "_head") else None
  }

  /** The holograms remove(LeaderboardHologram) walks, in order: every text
      hologram, then the first-place head if there is one. */
  function ComponentIds(baseId: string, n: nat, t: LeaderboardType): (r: seq<string>)
    ensures |r| == n + 3 + (if t == TopPlayerHead then 1 else 0)
  {
    TextIds(baseId, n) + (if t == TopPlayerHead then [baseId + "_head"] else [])
  }

  /** Two ids built on the same base differ when their suffixes do. */
  lemma SuffixesDiffer(baseId: string, s: string, t: string)
    requires s != t
    ensures baseId + s != baseId + t
  {
    assert (baseId + s)[|baseId|..] == s;
    assert (baseId + t)[|baseId|..] == t;
  }

  /** The suffix of an entry id. */
  function EntrySuffix(i: nat): string {
    "_entry_" + Decimal(i)
  }

  /** Entry suffixes differ from each other and from the fixed suffixes. */
  lemma EntrySuffixDistinct(i: nat, j: nat)
    ensures i != j ==> EntrySuffix(i) != EntrySuffix(j)
    ensures EntrySuffix(i) != "_background" && EntrySuffix(i) != "_header"
    ensures EntrySuffix(i) != "_footer" && EntrySuffix(i) != "_head"
  {
    if i != j && EntrySuffix(i) == EntrySuffix(j) {
      assert EntrySuffix(i)[7..] == Decimal(i);
      assert EntrySuffix(j)[7..] == Decimal(j);
      DecimalInjective(i, j);
    }
    assert EntrySuffix(i)[1] == 'e';
  }

  /** Every child of a leaderboard gets its own id, so removing a
      leaderboard whose children are all registered removes every one of
      them and answers true. */
  lemma {:induction false} ComponentIdsDistinct(baseId: string, n: nat, t: LeaderboardType)
    ensures forall i, j :: 0 <= i < j < |ComponentIds(baseId, n, t)| ==>
              ComponentIds(baseId, n, t)[i] != ComponentIds(baseId, n, t)[j]
  {
    var ids := ComponentIds(baseId, n, t);
    forall i, j | 0 <= i < j < |ids|
      ensures ids[i] != ids[j]
    {
      var si := Suffix(n, t, i);
      var sj := Suffix(n, t, j);
      SuffixAt(baseId, n, t, i);
      SuffixAt(baseId, n, t, j);
      SuffixDistinct(n, t, i, j);
      SuffixesDiffer(baseId, si, sj);
    }
  }

  /** The suffix of the `i`-th component id. */
  function Suffix(n: nat, t: LeaderboardType, i: nat): string {
    if i == 0 then "_background"
    else if i == 1 then "_header"
    else if i < n + 2 then EntrySuffix(i - 1)
    else if i == n + 2 then "_footer"
    else "_head"
  }

  lemma SuffixAt(baseId: string, n: nat, t: LeaderboardType, i: nat)
    requires i < |ComponentIds(baseId, n, t)|
    ensures ComponentIds(baseId, n, t)[i] == baseId + Suffix(n, t, i)
  {
    var ids := ComponentIds(baseId, n, t);
    var text := TextIds(baseId, n);
    if i < n + 3 {
      assert ids[i] == text[i];
      if 2 <= i < n + 2 {
        assert text[i] == EntryIds(baseId, n)[i - 2];
      }
    }
  }

  lemma SuffixDistinct(n: nat, t: LeaderboardType, i: nat, j: nat)
    requires i < j < n + 4
    ensures Suffix(n, t, i) != Suffix(n, t, j)
  {
    if 2 <= i < n + 2 {
      EntrySuffixDistinct(i - 1, if 2 <= j < n + 2 then j - 1 else 0);
    } else if 2 <= j < n + 2 {
      EntrySuffixDistinct(j - 1, 0);
    } else {
      assert "_background"[1] == 'b' && "_header"[1] == 'h' && "_footer"[1] == 'f';
      assert |"_header"| != |"_head"| && "_footer"[1] != "_head"[1];
    }
  }

  // ---------------------------------------------------------------------
  // Text substitution

  /** String.replace(target, replacement): every occurrence of `pat`,
      scanning left to right without overlap, is replaced. */
  function Replace(s: string, pat: string, rep: string): string
    requires pat != []
    decreases |s|
  {
    if |s| < |pat| then s
    else if s[..|pat|] == pat then rep + Replace(s[|pat|..], pat, rep)
    else [s[0]] + Replace(s[1..], pat, rep)
  }

  /** Whether `pat` occurs in `s`. */
  predicate Occurs(s: string, pat: string)
    decreases |s|
  {
    |s| >= |pat| && (s[..|pat|] == pat || (s != [] && Occurs(s[1..], pat)))
  }

  /** A string without the pattern is left as it is. */
  lemma {:induction false} ReplaceAbsent(s: string, pat: string, rep: string)
    requires pat != [] && !Occurs(s, pat)
    ensures Replace(s, pat, rep) == s
    decreases |s|
  {
    if |s| >= |pat| {
      ReplaceAbsent(s[1..], pat, rep);
      assert s == [s[0]] + s[1..];
    }
  }

  /** A string that is exactly the pattern becomes the replacement. */
  lemma ReplaceWhole(pat: string, rep: string)
    requires pat != []
    ensures Replace(pat, pat, rep) == rep
  {
    assert pat[|pat|..] == [];
    assert pat[..|pat|] == pat;
  }

  // ---------------------------------------------------------------------
  // Place formats

  /** The format of a place: one of the first three place formats when
      configured, the default format otherwise. */
  function PlaceFormat(opts: Options, place: int): (r: string)
    requires place >= 1
    ensures place > 3 || place > |opts.placeFormats| ==> r == opts.defaultPlaceFormat
    ensures place <= 3 && place <= |opts.placeFormats| ==> r == opts.placeFormats[place - 1]
  {
    if place <= 3 && place <= |opts.placeFormats| then opts.placeFormats[place - 1] else opts.defaultPlaceFormat
  }

  /** The head text of an entry: the player's head glyphs (or the
      placeholder head while they load) with ALL_PLAYER_HEADS in
      RESOURCEPACK mode, nothing otherwise. */
  function HeadText(opts: Options, uuid: Uuid, heads: map<Uuid, string>, placeholderHead: string): (r: string)
    ensures !(opts.leaderboardType == AllPlayerHeads && opts.headMode == ResourcePack) ==> r == ""
    ensures opts.leaderboardType == AllPlayerHeads && opts.headMode == ResourcePack ==>
      r == if uuid in heads then heads[uuid] else placeholderHead
  {
    if opts.leaderboardType == AllPlayerHeads && opts.headMode == ResourcePack then
      (if uuid in heads then heads[uuid] else placeholderHead)
    else ""
  }

  /** The six substitutions, in the order the source applies them. */
  function Substitute(format: string, place: string, name: string, score: string, suffix: string,
                      extra: string, head: string): string
  {
    var s1 := Replace(format, "{place}", place);
    var s2 := Replace(s1, "{name}", name);
    var s3 := Replace(s2, "{score}", score);
    var s4 := Replace(s3, "{suffix}", suffix);
    var s5 := Replace(s4, "{extra}", extra);
    Replace(s5, "{head}", head)
  }

  /** getFormattedEntry: the place's format with the place number, the
      player's name, the formatted score, the suffix, the player's extra
      text (empty when none) and the head text filled in. */
  function FormattedEntry(opts: Options, place: int, e: ScoreEntry, heads: map<Uuid, string>,
                          placeholderHead: string, formatScore: real -> string): string
    requires place >= 1
  {
    Substitute(PlaceFormat(opts, place), Decimal(place), e.player.name, formatScore(e.player.score),
               opts.suffix, if e.uuid in opts.extra then opts.extra[e.uuid] else "",
               HeadText(opts, e.uuid, heads, placeholderHead))
  }

  /** getEmptyPlaceFormat: the default format for a place nobody holds,
      with "-------" as name, "-- --" as score and no extra or head. */
  function EmptyPlace(opts: Options, place: nat): string {
    Substitute(opts.defaultPlaceFormat, Decimal(place), "-------", "-- --", opts.suffix, "", "")
  }

  /** Places past the third always use the default format, however many
      place formats are configured. */
  lemma LatePlacesUseDefault(opts: Options, place: int, e: ScoreEntry, heads: map<Uuid, string>,
                             placeholderHead: string, formatScore: real -> string)
    requires place > 3
    ensures FormattedEntry(opts, place, e, heads, placeholderHead, formatScore)
         == Substitute(opts.defaultPlaceFormat, Decimal(place), e.player.name, formatScore(e.player.score),
                       opts.suffix, if e.uuid in opts.extra then opts.extra[e.uuid] else "",
                       HeadText(opts, e.uuid, heads, placeholderHead))
  {
  }

  /** The substitutions run in sequence, so text put in by an earlier one
      is open to the later ones: a name that is literally "{score}" shows
      the score. */
  lemma NameSeenByLaterSubstitutions(score: string)
    requires !Occurs(score, "{suffix}") && !Occurs(score, "{extra}") && !Occurs(score, "{head}")
    ensures Substitute("{name}", "1", "{score}", score, "", "", "") == score
  {
    assert !Occurs("{name}", "{place}") by {
      assert |"{name}"| < |"{place}"|;
    }
    ReplaceAbsent("{name}", "{place}", "1");
    ReplaceWhole("{name}", "{score}");
    ReplaceWhole("{score}", score);
    ReplaceAbsent(score, "{suffix}", "");
    ReplaceAbsent(score, "{extra}", "");
    ReplaceAbsent(score, "{head}", "");
  }

  // ---------------------------------------------------------------------
  // Ranking

  /** `a` ranks strictly above `b`: a higher score when descending, a
      lower one when ascending. */
  predicate Above(a: ScoreEntry, b: ScoreEntry, order: SortOrder) {
    if order == Descending then a.player.score > b.player.score else a.player.score < b.player.score
  }

  /** No entry ranks strictly above an earlier one. */
  predicate Ranked(s: seq<ScoreEntry>, order: SortOrder) {
    forall i, j :: 0 <= i < j < |s| ==> !Above(s[j], s[i], order)
  }

  /** Insertion of one more entry behind every entry it does not rank
      strictly above, which keeps equal scores in arrival order. */
  function Insert(x: ScoreEntry, s: seq<ScoreEntry>, order: SortOrder): (r: seq<ScoreEntry>)
    ensures |r| == |s| + 1
    decreases |s|
  {
    if s == [] then [x]
    else if Above(x, s[0], order) then [x] + s
    else [s[0]] + Insert(x, s[1..], order)
  }

  /** An entry ranking strictly above the head of a ranked list may go
      in front of it. */
  lemma RankedCons(x: ScoreEntry, s: seq<ScoreEntry>, order: SortOrder)
    requires Ranked(s, order) && s != [] && Above(x, s[0], order)
    ensures Ranked([x] + s, order)
  {
    var r := [x] + s;
    forall i, j | 0 <= i < j < |r|
      ensures !Above(r[j], r[i], order)
    {
      assert r[j] == s[j - 1];
      if i > 0 {
        assert r[i] == s[i - 1];
      }
    }
  }

  /** The head of a ranked list stays in front of a ranked list made of
      the rest and one entry that does not rank strictly above it. */
  lemma RankedBehind(x: ScoreEntry, s: seq<ScoreEntry>, rest: seq<ScoreEntry>, order: SortOrder)
    requires Ranked(s, order) && s != [] && !Above(x, s[0], order)
    requires Ranked(rest, order) && multiset(rest) == multiset(s[1..]) + multiset{x}
    ensures Ranked([s[0]] + rest, order)
  {
    var r := [s[0]] + rest;
    forall i, j | 0 <= i < j < |r|
      ensures !Above(r[j], r[i], order)
    {
      assert r[j] == rest[j - 1];
      if i == 0 {
        assert rest[j - 1] in multiset(s[1..]) + multiset{x};
        if rest[j - 1] != x {
          assert rest[j - 1] in multiset(s[1..]);
          var k :| 0 <= k < |s[1..]| && s[1..][k] == rest[j - 1];
          assert s[k + 1] == rest[j - 1];
        }
      } else {
        assert r[i] == rest[i - 1];
      }
    }
  }

  /** Insertion adds exactly the one entry and keeps the list ranked. */
  lemma {:induction false} InsertKeeps(x: ScoreEntry, s: seq<ScoreEntry>, order: SortOrder)
    requires Ranked(s, order)
    ensures multiset(Insert(x, s, order)) == multiset(s) + multiset{x}
    ensures Ranked(Insert(x, s, order), order)
    decreases |s|
  {
    if s == [] {
    } else if Above(x, s[0], order) {
      RankedCons(x, s, order);
    } else {
      assert s == [s[0]] + s[1..];
      InsertKeeps(x, s[1..], order);
      RankedBehind(x, s, Insert(x, s[1..], order), order);
    }
  }

  /** The stable sort of the score list (TimSort keeps ties in their
      input order, as insertion does). */
  function SortEntries(s: seq<ScoreEntry>, order: SortOrder): (r: seq<ScoreEntry>)
    ensures |r| == |s|
    decreases |s|
  {
    if s == [] then [] else Insert(s[|s| - 1], SortEntries(s[..|s| - 1], order), order)
  }

  /** The sort is a permutation of its input, ranked. */
  lemma {:induction false} SortEntriesKeeps(s: seq<ScoreEntry>, order: SortOrder)
    ensures multiset(SortEntries(s, order)) == multiset(s)
    ensures Ranked(SortEntries(s, order), order)
    decreases |s|
  {
    if s != [] {
      SortEntriesKeeps(s[..|s| - 1], order);
      InsertKeeps(s[|s| - 1], SortEntries(s[..|s| - 1], order), order);
      assert s == s[..|s| - 1] + [s[|s| - 1]];
    }
  }

  /** getSortedEntries: the sorted list cut to at most
      `maxDisplayEntries` entries. */
  function TopEntries(s: seq<ScoreEntry>, order: SortOrder, max: nat): (r: seq<ScoreEntry>)
    ensures |r| == if |s| < max then |s| else max
  {
    SortEntries(s, order)[..if |s| < max then |s| else max]
  }

  /** The entries of a score map. */
  ghost function Entries(data: map<Uuid, PlayerScore>): set<ScoreEntry> {
    set u | u in data :: ScoreEntry(u, data[u])
  }

  /** `shown` is a top-`max` selection of `data`: as many entries as the
      map has, up to `max`, each a distinct entry of the map, ranked, and
      no entry left out ranks strictly above any entry shown. */
  ghost predicate IsTop(shown: seq<ScoreEntry>, data: map<Uuid, PlayerScore>, order: SortOrder, max: nat) {
    |shown| == (if |data| < max then |data| else max)
    && multiset(shown) <= multiset(Entries(data))
    && Ranked(shown, order)
    && forall x, i :: x in Entries(data) && x !in shown && 0 <= i < |shown| ==> !Above(x, shown[i], order)
  }

  /** A list without repeats has the multiset of its set of elements. */
  lemma {:induction false} DistinctMultiset(xs: seq<ScoreEntry>)
    requires forall i, j :: 0 <= i < j < |xs| ==> xs[i] != xs[j]
    ensures multiset(xs) == multiset(set x | x in xs)
    decreases |xs|
  {
    if xs != [] {
      var init := xs[..|xs| - 1];
      var last := xs[|xs| - 1];
      DistinctMultiset(init);
      assert xs == init + [last];
      forall k | 0 <= k < |init|
        ensures init[k] != last
      {
        assert init[k] == xs[k];
      }
      assert (set x | x in xs) == (set x | x in init) + {last};
    }
  }

  /** Sorting and cutting any listing of a score map's entries, each once,
      selects the top entries of the map. */
  lemma TopEntriesIsTop(s: seq<ScoreEntry>, data: map<Uuid, PlayerScore>, order: SortOrder, max: nat)
    requires |s| == |data|
    requires forall i, j :: 0 <= i < j < |s| ==> s[i] != s[j]
    requires (set x | x in s) == Entries(data)
    ensures IsTop(TopEntries(s, order, max), data, order, max)
  {
    var sorted := SortEntries(s, order);
    SortEntriesKeeps(s, order);
    DistinctMultiset(s);
    var k := if |s| < max then |s| else max;
    PrefixOfRanked(sorted, k, order);
    forall x, i | x in Entries(data) && x !in sorted[..k] && 0 <= i < k
      ensures !Above(x, sorted[..k][i], order)
    {
      assert x in multiset(sorted);
    }
  }

  /** A prefix of a ranked list is ranked, no larger as a multiset, and
      no later entry ranks strictly above an entry in it. */
  lemma PrefixOfRanked(sorted: seq<ScoreEntry>, k: nat, order: SortOrder)
    requires Ranked(sorted, order) && k <= |sorted|
    ensures Ranked(sorted[..k], order)
    ensures multiset(sorted[..k]) <= multiset(sorted)
    ensures forall x, i :: x in sorted && x !in sorted[..k] && 0 <= i < k ==> !Above(x, sorted[..k][i], order)
  {
    assert sorted == sorted[..k] + sorted[k..];
    forall x, i | x in sorted && x !in sorted[..k] && 0 <= i < k
      ensures !Above(x, sorted[..k][i], order)
    {
      var j :| 0 <= j < |sorted| && sorted[j] == x;
      assert sorted[..k][i] == sorted[i];
    }
  }

  /** `entries` lists the entries of `data` whose uuids are in `done`, each
      once. */
  ghost predicate ListsEntries(entries: seq<ScoreEntry>, data: map<Uuid, PlayerScore>, done: set<Uuid>) {
    done <= data.Keys
    && |entries| == |done|
    && (forall i, j :: 0 <= i < j < |entries| ==> entries[i].uuid != entries[j].uuid)
    && forall x :: x in entries <==> x.uuid in done && x.player == data[x.uuid]
  }

  /** Listing the entry of one more uuid. */
  lemma ListStep(entries: seq<ScoreEntry>, data: map<Uuid, PlayerScore>, done: set<Uuid>, u: Uuid)
    requires ListsEntries(entries, data, done) && u in data && u !in done
    ensures ListsEntries(entries + [ScoreEntry(u, data[u])], data, done + {u})
  {
    var e := entries + [ScoreEntry(u, data[u])];
    forall i | 0 <= i < |entries|
      ensures e[i].uuid != u
    {
      assert entries[i] in entries;
    }
  }

  /** A listing of every uuid is a listing of the map's entries without
      repeats. */
  lemma ListDone(entries: seq<ScoreEntry>, data: map<Uuid, PlayerScore>)
    requires ListsEntries(entries, data, data.Keys)
    ensures |entries| == |data|
    ensures forall i, j :: 0 <= i < j < |entries| ==> entries[i] != entries[j]
    ensures (set x | x in entries) == Entries(data)
  {
    forall x | x in Entries(data)
      ensures x in entries
    {
      var u :| u in data && x == ScoreEntry(u, data[u]);
    }
  }

  /** The text of each entry hologram after an update that ranked
      `shown`: the formatted entry for a held place, the empty-place text
      (or nothing) for the rest. */
  function EntryTexts(opts: Options, shown: seq<ScoreEntry>, heads: map<Uuid, string>,
                      placeholderHead: string, formatScore: real -> string): (r: seq<string>)
    ensures |r| == opts.maxDisplayEntries
  {
    seq(opts.maxDisplayEntries, i requires 0 <= i =>
      if i < |shown| then FormattedEntry(opts, i + 1, shown[i], heads, placeholderHead, formatScore)
      else if opts.showEmptyPlaces then EmptyPlace(opts, i + 1)
      else "")
  }

  // ---------------------------------------------------------------------
  // The leaderboard object

  /** The LeaderboardHologram constructor: an id with a space throws
      before any child hologram is made. */
  method NewLeaderboard(options: Options, id: string) returns (r: Result<LeaderboardHologram>)
    ensures r.Ok? <==> !HasSpace(id)
    ensures r.Err? ==> r.error == ValidateId(id).error
    ensures r.Ok? ==> fresh(r.value) && r.value.baseId == id && r.value.options == options
                      && r.value.allTextHolograms == TextIds(id, options.maxDisplayEntries)
                      && r.value.firstPlaceHead == HeadId(id, options.leaderboardType)
  {
    var v := ValidateId(id);
    if v.Fail? {
      return Err(v.error);
    }
    var b := new LeaderboardHologram(options, id);
    return Ok(b);
  }

  class LeaderboardHologram {
    const baseId: string
    const options: Options
    /** The child text holograms, by id: background, header, entries,
        footer. */
    const allTextHolograms: seq<string>
    const entryHolograms: seq<string>
    /** The item hologram showing the first-placed player's head. */
    const firstPlaceHead: Option<string>
    /** The text of each entry hologram, by place. */
    const entryTexts: array<string>
    var headerText: string
    var footerText: string
    var backgroundText: string
    /** Whose head the first-place head shows. */
    var headOwner: Option<Uuid>
    var playerData: map<Uuid, PlayerScore>
    var baseLocation: Option<Location>
    var leaderboardEntries: int

    /** One text slot per entry hologram. */
    ghost predicate Valid()
      reads this
    {
      entryTexts.Length == options.maxDisplayEntries
      && entryHolograms == EntryIds(baseId, options.maxDisplayEntries)
      && allTextHolograms == TextIds(baseId, options.maxDisplayEntries)
      && firstPlaceHead == HeadId(baseId, options.leaderboardType)
    }

    /** The children are made in order: background, header, the entries
        `baseId_entry_1` .. `baseId_entry_N`, footer, and the head only for
        TOP_PLAYER_HEAD. Every text starts empty except the background's
        single space. */
    constructor(options: Options, id: string)
      requires !HasSpace(id)
      ensures Valid()
      ensures baseId == id && this.options == options
      ensures entryHolograms == EntryIds(id, options.maxDisplayEntries)
      ensures allTextHolograms == TextIds(id, options.maxDisplayEntries)
      ensures firstPlaceHead == HeadId(id, options.leaderboardType)
      ensures fresh(entryTexts) && entryTexts[..] == seq(options.maxDisplayEntries, _ => "")
      ensures headerText == "" && footerText == "" && backgroundText == " " && headOwner.None?
      ensures playerData == map[] && baseLocation.None? && leaderboardEntries == 0
    {
      var entries: seq<string> := [];
      for i := 1 to options.maxDisplayEntries + 1
        invariant entries == EntryIds(id, i - 1)
      {
        entries := entries + [id + "_entry_" + Decimal(i)];
      }
      baseId := id;
      this.options := options;
      entryHolograms := entries;
      allTextHolograms := [id + "_background", id + "_header"] + entries + [id + "_footer"];
      firstPlaceHead := if options.leaderboardType == TopPlayerHead then Some(id + "_head") else None;
      entryTexts := new string[options.maxDisplayEntries](_ => "");
      headerText := "";
      footerText := "";
      backgroundText := " ";
      headOwner := None;
      playerData := map[];
      baseLocation := None;
      leaderboardEntries := 0;
    }

    /** The holograms remove(LeaderboardHologram) walks. */
    function Components(): (r: seq<string>)
      reads this
      ensures Valid() ==> r == ComponentIds(baseId, options.maxDisplayEntries, options.leaderboardType)
    {
      allTextHolograms + (if firstPlaceHead.Some? then [firstPlaceHead.value] else [])
    }

    /** setPlayerScore (both overloads): the player's entry is overwritten. */
    method SetPlayerScore(uuid: Uuid, name: string, score: real)
      modifies this`playerData
      ensures playerData == old(playerData)[uuid := PlayerScore(name, score)]
    {
      playerData := playerData[uuid := PlayerScore(name, score)];
    }

    /** setAllScores: the score map is replaced by a copy of `data`. */
    method SetAllScores(data: map<Uuid, PlayerScore>)
      modifies this`playerData
      ensures playerData == data
    {
      playerData := data;
    }

    /** removePlayer: the player's entry is deleted. */
    method RemovePlayer(uuid: Uuid)
      modifies this`playerData
      ensures playerData == old(playerData) - {uuid}
    {
      playerData := playerData - {uuid};
    }

    /** new ArrayList<>(playerData.entrySet()): the map's entries, each
        once, in the map's iteration order. */
    method ScoreList() returns (entries: seq<ScoreEntry>)
      ensures |entries| == |playerData|
      ensures forall i, j :: 0 <= i < j < |entries| ==> entries[i] != entries[j]
      ensures (set x | x in entries) == Entries(playerData)
    {
      entries := [];
      var todo := playerData.Keys;
      ghost var done: set<Uuid> := {};
      while todo != {}
        invariant todo == playerData.Keys - done
        invariant ListsEntries(entries, playerData, done)
        decreases todo
      {
        ghost var some := Pick(todo);
        var u :| u in todo;
        ListStep(entries, playerData, done, u);
        entries := entries + [ScoreEntry(u, playerData[u])];
        todo := todo - {u};
        done := done + {u};
      }
      assert done == playerData.Keys;
      ListDone(entries, playerData);
    }

    /** update: without a base location it changes nothing. Otherwise it
        counts the entries, ranks the score map and keeps the top
        `maxDisplayEntries` (returned as `shown`), writes the footer, fills
        the places nobody holds with the empty-place text (or clears them),
        writes each held place's formatted entry, points the first-place
        head at the leader (TOP_PLAYER_HEAD, when anyone is ranked) and
        writes the header. `heads` is the head-glyph cache as it stands and
        `placeholderHead` the glyphs of the placeholder profile. */
    method Update(heads: map<Uuid, string>, placeholderHead: string, formatScore: real -> string)
      returns (shown: seq<ScoreEntry>)
      requires Valid()
      modifies this`leaderboardEntries, this`headerText, this`footerText, this`headOwner, entryTexts
      ensures baseLocation.None? ==> shown == [] && unchanged(this) && unchanged(entryTexts)
      ensures baseLocation.Some? ==> IsTop(shown, playerData, options.sortOrder, options.maxDisplayEntries)
      ensures baseLocation.Some? ==>
        leaderboardEntries == |playerData|
        && entryTexts[..] == EntryTexts(options, shown, heads, placeholderHead, formatScore)
        && footerText == options.footerFormat
        && headerText == Replace(options.titleFormat, "{title}", options.title)
        && headOwner == if options.leaderboardType == TopPlayerHead && shown != [] then Some(shown[0].uuid)
                        else old(headOwner)
    {
      if baseLocation.None? {
        // The source logs a warning here.
        return [];
      }
      leaderboardEntries := |playerData|;
      shown := RankedEntries();
      footerText := options.footerFormat;
      WriteEntries(shown, heads, placeholderHead, formatScore);
      if options.leaderboardType == TopPlayerHead && shown != [] {
        headOwner := Some(shown[0].uuid);
      }
      headerText := Replace(options.titleFormat, "{title}", options.title);
    }

    /** getSortedEntries followed by the cut at maxDisplayEntries: the top
        of the score map. */
    method RankedEntries() returns (shown: seq<ScoreEntry>)
      ensures |shown| <= options.maxDisplayEntries
      ensures IsTop(shown, playerData, options.sortOrder, options.maxDisplayEntries)
    {
      var entries := ScoreList();
      shown := TopEntries(entries, options.sortOrder, options.maxDisplayEntries);
      TopEntriesIsTop(entries, playerData, options.sortOrder, options.maxDisplayEntries);
    }

    /** The entry-hologram part of update: the places past the ranked ones
        first, then each ranked place from the last up. */
    method WriteEntries(shown: seq<ScoreEntry>, heads: map<Uuid, string>, placeholderHead: string,
                        formatScore: real -> string)
      requires Valid() && |shown| <= options.maxDisplayEntries
      modifies entryTexts
      ensures entryTexts[..] == EntryTexts(options, shown, heads, placeholderHead, formatScore)
    {
      FillEmptyPlaces(|shown|);
      var i := |shown| - 1;
      while i >= 0
        invariant -1 <= i < |shown|
        invariant forall k :: |shown| <= k < options.maxDisplayEntries ==>
                    entryTexts[k] == if options.showEmptyPlaces then EmptyPlace(options, k + 1) else ""
        invariant forall k :: i < k < |shown| ==>
                    entryTexts[k] == FormattedEntry(options, k + 1, shown[k], heads, placeholderHead, formatScore)
      {
        entryTexts[i] := FormattedEntry(options, i + 1, shown[i], heads, placeholderHead, formatScore);
        i := i - 1;
      }
      assert entryTexts[..] == EntryTexts(options, shown, heads, placeholderHead, formatScore);
    }

    /** The two loops of update over the places past the ranked ones: with
        showEmptyPlaces each gets the empty-place text (from the last place
        down), without it each is cleared. */
    method FillEmptyPlaces(ranked: nat)
      requires Valid() && ranked <= options.maxDisplayEntries
      modifies entryTexts
      ensures forall k :: 0 <= k < ranked ==> entryTexts[k] == old(entryTexts[k])
      ensures forall k :: ranked <= k < options.maxDisplayEntries ==>
                entryTexts[k] == if options.showEmptyPlaces then EmptyPlace(options, k + 1) else ""
    {
      var maxEntries: int := options.maxDisplayEntries;
      if options.showEmptyPlaces {
        var i: int := maxEntries - 1;
        while i >= ranked
          invariant ranked - 1 <= i < maxEntries
          invariant forall k :: 0 <= k < ranked ==> entryTexts[k] == old(entryTexts[k])
          invariant forall k :: i < k < maxEntries ==> entryTexts[k] == EmptyPlace(options, k + 1)
        {
          entryTexts[i] := EmptyPlace(options, i + 1);
          i := i - 1;
        }
      } else {
        for i := ranked to maxEntries
          invariant forall k :: 0 <= k < ranked ==> entryTexts[k] == old(entryTexts[k])
          invariant forall k :: ranked <= k < i ==> entryTexts[k] == ""
        {
          entryTexts[i] := "";
        }
      }
    }

    /** teleport: the base location is set, then the board is updated. */
    method Teleport(loc: Location, heads: map<Uuid, string>, placeholderHead: string, formatScore: real -> string)
      returns (shown: seq<ScoreEntry>)
      requires Valid()
      modifies this`baseLocation, this`leaderboardEntries, this`headerText, this`footerText, this`headOwner, entryTexts
      ensures baseLocation == Some(loc)
      ensures IsTop(shown, playerData, options.sortOrder, options.maxDisplayEntries)
      ensures entryTexts[..] == EntryTexts(options, shown, heads, placeholderHead, formatScore)
    {
      baseLocation := Some(loc);
      shown := Update(heads, placeholderHead, formatScore);
    }
  }
}

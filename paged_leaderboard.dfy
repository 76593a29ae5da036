/** PagedLeaderboard: several leaderboard pages at one spot, of which each
    player sees one, switched with two arrow interaction boxes. */
module PagedLeaderboards {
  import opened Common
  import opened Holograms
  import opened Leaderboards

  // ---------------------------------------------------------------------
  // Page arithmetic

  /** Java's `%` on int for a positive divisor: the remainder of division
      truncated toward zero, which takes the sign of the dividend. */
  function Rem(a: int, n: int): (r: int)
    requires n > 0
    ensures 0 <= a ==> 0 <= r < n
    ensures a < 0 ==> -n < r <= 0
    ensures 0 <= a < n ==> r == a
    ensures n <= a < 2 * n ==> r == a - n
  {
    if a >= 0 then
      if a < n then ModSmall(a, n); a % n
      else if a < 2 * n then ModWrap(a, n); a % n
      else a % n
    else -((-a) % n)
  }

  lemma ModSmall(a: int, n: int)
    requires 0 <= a < n
    ensures a % n == a
  {
  }

  lemma ModWrap(a: int, n: int)
    requires n <= a < 2 * n
    ensures a % n == a - n
  {
  }

  /** nextPage's target: one page on, wrapping from the last to the first. */
  function NextIndex(current: int, n: int): int
    requires n > 0
  {
    Rem(current + 1, n)
  }

  /** previousPage's target: one page back, wrapping from the first to the
      last. */
  function PrevIndex(current: int, n: int): int
    requires n > 0
  {
    Rem(current - 1 + n, n)
  }

  /** From a page that exists, next and previous land on pages that exist,
      undo each other, and wrap around at the ends. */
  lemma NextPrevInverse(current: int, n: int)
    requires 0 <= current < n
    ensures 0 <= NextIndex(current, n) < n && 0 <= PrevIndex(current, n) < n
    ensures PrevIndex(NextIndex(current, n), n) == current
    ensures NextIndex(PrevIndex(current, n), n) == current
    ensures NextIndex(current, n) == if current == n - 1 then 0 else current + 1
    ensures PrevIndex(current, n) == if current == 0 then n - 1 else current - 1
  {
  }

  // ---------------------------------------------------------------------
  // What the players see

  /** The uuids of the online players. */
  ghost function Online(server: Snapshot): set<Uuid> {
    UuidsOf(OnlinePlayers(server))
  }

  /** Bukkit.getPlayer(uuid) finds a player exactly when one with that
      uuid is online. */
  lemma OnlineByUuid(server: Snapshot, u: Uuid)
    ensures PlayerByUuid(server, u).Some? <==> u in Online(server)
  {
    if u in Online(server) {
      var p :| p in OnlinePlayers(server) && p.uuid == u;
      assert p in server && p.online;
    }
  }

  // ---------------------------------------------------------------------
  // Blacklist counts

  /** A hologram's viewer blacklist is a list that takes repeats: hide adds
      one entry for the player, show removes one. `Count(h, k)` is how
      many entries the count map holds for a key, 0 for a key it does not
      hold. The next viewer pass of a hologram in render mode ALL keeps a
      nearby player exactly when the player's count is 0. */
  function Count<K>(h: map<K, nat>, k: K): nat {
    if k in h then h[k] else 0
  }

  /** Hologram.hide on the blacklist: one more entry. */
  function AddEntry<K>(h: map<K, nat>, k: K): (r: map<K, nat>)
    ensures Count(r, k) == Count(h, k) + 1
  {
    h[k := Count(h, k) + 1]
  }

  /** Hologram.show on the blacklist: one entry fewer, when there is one. */
  function DropEntry<K>(h: map<K, nat>, k: K): (r: map<K, nat>)
    ensures Count(r, k) == if Count(h, k) > 0 then Count(h, k) - 1 else 0
  {
    if Count(h, k) > 0 then h[k := Count(h, k) - 1] else h
  }

  /** Adding or dropping an entry for one key leaves every other key's
      count alone. */
  lemma EntryFrame<K>(h: map<K, nat>, k: K)
    ensures forall j :: j != k ==> Count(AddEntry(h, k), j) == Count(h, j)
    ensures forall j :: j != k ==> Count(DropEntry(h, k), j) == Count(h, j)
  {
  }

  /** The counts follow the blacklist list itself: appending a player
      (hide) and removing its first occurrence (show) move its multiplicity
      as AddEntry and DropEntry move its count, and leave every other
      player's alone; a player is on the list exactly when its count is
      positive. */
  lemma EntriesFollowBlacklist(blacklist: seq<Uuid>, h: map<Uuid, nat>, u: Uuid)
    requires forall w :: Count(h, w) == multiset(blacklist)[w]
    ensures forall w :: Count(AddEntry(h, u), w) == multiset(blacklist + [u])[w]
    ensures forall w :: Count(DropEntry(h, u), w) == multiset(RemoveFirst(blacklist, u))[w]
    ensures forall w :: w in blacklist <==> Count(h, w) > 0
  {
    assert multiset(blacklist + [u]) == multiset(blacklist) + multiset{u};
    EntryFrame(h, u);
  }

  /** A (player, page) pair. */
  type PageKey = (Uuid, LeaderboardHologram)

  /** How many players of a list have the uuid: a server lists each online
      player once, so 1 for an online player. */
  function UuidCount(ps: seq<Player>, u: Uuid): (r: nat)
    ensures r > 0 <==> u in UuidsOf(ps)
    ensures r <= |ps|
    decreases |ps|
  {
    if ps == [] then 0
    else
      UuidsOfSnoc(ps[..|ps| - 1], ps[|ps| - 1]);
      assert ps == ps[..|ps| - 1] + [ps[|ps| - 1]];
      UuidCount(ps[..|ps| - 1], u) + if ps[|ps| - 1].uuid == u then 1 else 0
  }

  /** Each page of `ps` hidden once from the player, in order. */
  function PagesHidden(h: map<PageKey, nat>, u: Uuid, ps: seq<LeaderboardHologram>): map<PageKey, nat>
    decreases |ps|
  {
    if ps == [] then h else AddEntry(PagesHidden(h, u, ps[..|ps| - 1]), (u, ps[|ps| - 1]))
  }

  /** Hiding every page once adds, for that player only, one entry per
      listing of the page: a page listed twice is hidden twice. */
  lemma {:induction false} PagesHiddenEntries(h: map<PageKey, nat>, u: Uuid, ps: seq<LeaderboardHologram>)
    ensures forall p :: Count(PagesHidden(h, u, ps), (u, p)) == Count(h, (u, p)) + multiset(ps)[p]
    ensures forall k: PageKey :: k.0 != u ==> Count(PagesHidden(h, u, ps), k) == Count(h, k)
    decreases |ps|
  {
    if ps != [] {
      var n := |ps| - 1;
      assert ps == ps[..n] + [ps[n]];
      PagesHiddenEntries(h, u, ps[..n]);
      EntryFrame(PagesHidden(h, u, ps[..n]), (u, ps[n]));
    }
  }

  /** One page hidden once from every player of a list, in order. */
  function PageHiddenFrom(h: map<PageKey, nat>, players: seq<Player>, p: LeaderboardHologram): map<PageKey, nat>
    decreases |players|
  {
    if players == [] then h
    else AddEntry(PageHiddenFrom(h, players[..|players| - 1], p), (players[|players| - 1].uuid, p))
  }

  /** Hiding one page from a list of players adds, for that page only, one
      entry per listing of the player. */
  lemma {:induction false} PageHiddenFromEntries(h: map<PageKey, nat>, players: seq<Player>, p: LeaderboardHologram)
    ensures forall w :: Count(PageHiddenFrom(h, players, p), (w, p)) == Count(h, (w, p)) + UuidCount(players, w)
    ensures forall k: PageKey :: k.1 != p ==> Count(PageHiddenFrom(h, players, p), k) == Count(h, k)
    decreases |players|
  {
    if players != [] {
      var n := |players| - 1;
      PageHiddenFromEntries(h, players[..n], p);
      EntryFrame(PageHiddenFrom(h, players[..n], p), (players[n].uuid, p));
    }
  }

  /** Each page of `ps` hidden once from every player of a list, page by
      page. */
  function PagesHiddenFrom(h: map<PageKey, nat>, players: seq<Player>, ps: seq<LeaderboardHologram>)
    : map<PageKey, nat>
    decreases |ps|
  {
    if ps == [] then h
    else PageHiddenFrom(PagesHiddenFrom(h, players, ps[..|ps| - 1]), players, ps[|ps| - 1])
  }

  /** Hiding every page from every player adds one entry per listing of the
      player and per listing of the page. */
  lemma PagesHiddenFromEntries(h: map<PageKey, nat>, players: seq<Player>, ps: seq<LeaderboardHologram>)
    ensures forall w, p :: Count(PagesHiddenFrom(h, players, ps), (w, p))
                           == Count(h, (w, p)) + UuidCount(players, w) * multiset(ps)[p]
  {
    forall w, p
      ensures Count(PagesHiddenFrom(h, players, ps), (w, p))
              == Count(h, (w, p)) + UuidCount(players, w) * multiset(ps)[p]
    {
      PagesHiddenFromEntry(h, players, ps, w, p);
    }
  }

  /** The same, for one (player, page) pair. */
  lemma {:induction false} PagesHiddenFromEntry(h: map<PageKey, nat>, players: seq<Player>,
                                                ps: seq<LeaderboardHologram>, w: Uuid, p: LeaderboardHologram)
    ensures Count(PagesHiddenFrom(h, players, ps), (w, p))
            == Count(h, (w, p)) + UuidCount(players, w) * multiset(ps)[p]
    decreases |ps|
  {
    if ps != [] {
      var n := |ps| - 1;
      assert ps == ps[..n] + [ps[n]];
      var g := PagesHiddenFrom(h, players, ps[..n]);
      var c := UuidCount(players, w);
      var m := multiset(ps[..n])[p];
      PagesHiddenFromEntry(h, players, ps[..n], w, p);
      PageHiddenFromEntries(g, players, ps[n]);
      assert Count(g, (w, p)) == Count(h, (w, p)) + c * m;
      if p == ps[n] {
        assert multiset(ps)[p] == m + 1;
        MulSucc(c, m);
      } else {
        assert multiset(ps)[p] == m;
      }
    }
  }

  lemma MulSucc(c: nat, m: nat)
    ensures c * (m + 1) == c * m + c
  {
  }

  /** One page shown once to every player of a list, in order. */
  function PageShownTo(h: map<PageKey, nat>, players: seq<Player>, p: LeaderboardHologram): map<PageKey, nat>
    decreases |players|
  {
    if players == [] then h
    else DropEntry(PageShownTo(h, players[..|players| - 1], p), (players[|players| - 1].uuid, p))
  }

  /** Showing one page to a list of players removes, for that page only,
      one entry per listing of the player, down to none. */
  lemma {:induction false} PageShownToEntries(h: map<PageKey, nat>, players: seq<Player>, p: LeaderboardHologram)
    ensures forall w :: Count(PageShownTo(h, players, p), (w, p))
                        == if Count(h, (w, p)) > UuidCount(players, w) then Count(h, (w, p)) - UuidCount(players, w)
                           else 0
    ensures forall k: PageKey :: k.1 != p ==> Count(PageShownTo(h, players, p), k) == Count(h, k)
    decreases |players|
  {
    if players != [] {
      var n := |players| - 1;
      PageShownToEntries(h, players[..n], p);
      EntryFrame(PageShownTo(h, players[..n], p), (players[n].uuid, p));
    }
  }

  /** The counts after switchToPage moves a player from page `cur` to page
      `index`: the current page, when it exists, is hidden once, then the
      new one shown once. */
  function Switched(h: map<PageKey, nat>, pages: seq<LeaderboardHologram>, u: Uuid, cur: int, index: int)
    : map<PageKey, nat>
    requires 0 <= cur && 0 <= index < |pages|
  {
    var hidden := if cur < |pages| then AddEntry(h, (u, pages[cur])) else h;
    DropEntry(hidden, (u, pages[index]))
  }

  /** The counts after show: every page hidden once, then the current page
      shown once, or the first page when the current one does not exist. */
  function ShowCounts(h: map<PageKey, nat>, pages: seq<LeaderboardHologram>, u: Uuid, cur: int): map<PageKey, nat>
    requires 0 <= cur
  {
    var hidden := PagesHidden(h, u, pages);
    if cur < |pages| then DropEntry(hidden, (u, pages[cur]))
    else if pages != [] then DropEntry(hidden, (u, pages[0]))
    else hidden
  }

  /** What a player's count for page `p` becomes when `hideAt` is hidden
      from them once and then `showAt` shown once. */
  function MovedCount(c: nat, p: LeaderboardHologram, hideAt: Option<LeaderboardHologram>,
                      showAt: Option<LeaderboardHologram>): nat
  {
    var hidden := if hideAt == Some(p) then c + 1 else c;
    if showAt == Some(p) && hidden > 0 then hidden - 1 else hidden
  }

  /** One player of the removed page moved, during removePage: `hideAt`
      hidden from them once, then `showAt` shown once, when those are
      pages. */
  function Moved(h: map<PageKey, nat>, u: Uuid, hideAt: Option<LeaderboardHologram>,
                 showAt: Option<LeaderboardHologram>): map<PageKey, nat>
  {
    var hidden := if hideAt.Some? then AddEntry(h, (u, hideAt.value)) else h;
    if showAt.Some? then DropEntry(hidden, (u, showAt.value)) else hidden
  }

  /** Moving a player changes only that player's counts, each as MovedCount
      says. */
  lemma MovedEntries(h: map<PageKey, nat>, u: Uuid, hideAt: Option<LeaderboardHologram>,
                     showAt: Option<LeaderboardHologram>)
    ensures forall p :: Count(Moved(h, u, hideAt, showAt), (u, p)) == MovedCount(Count(h, (u, p)), p, hideAt, showAt)
    ensures forall k: PageKey :: k.0 != u ==> Count(Moved(h, u, hideAt, showAt), k) == Count(h, k)
  {
    var hidden := if hideAt.Some? then AddEntry(h, (u, hideAt.value)) else h;
    if hideAt.Some? {
      EntryFrame(h, (u, hideAt.value));
    }
    if showAt.Some? {
      EntryFrame(hidden, (u, showAt.value));
    }
  }

  /** The keys a move can raise from 0: a mover's pair with the page hidden
      from them. */
  ghost function MovedKeys(movers: set<Uuid>, hideAt: Option<LeaderboardHologram>): set<PageKey> {
    if hideAt.Some? then set u | u in movers :: (u, hideAt.value) else {}
  }

  /** The counts `h1` are `h0` with every player of `movers` moved, in
      whatever order the walk took them (keys outside the three sets named
      hold no entry on either side). */
  ghost predicate MovedAll(h0: map<PageKey, nat>, h1: map<PageKey, nat>, movers: set<Uuid>,
                           hideAt: Option<LeaderboardHologram>, showAt: Option<LeaderboardHologram>)
  {
    forall k | k in h0.Keys + h1.Keys + MovedKeys(movers, hideAt) ::
      Count(h1, k) == if k.0 in movers then MovedCount(Count(h0, k), k.1, hideAt, showAt) else Count(h0, k)
  }

  /** MovedAll holds for every key, not only the ones it names. */
  lemma MovedAllEverywhere(h0: map<PageKey, nat>, h1: map<PageKey, nat>, movers: set<Uuid>,
                           hideAt: Option<LeaderboardHologram>, showAt: Option<LeaderboardHologram>)
    requires MovedAll(h0, h1, movers, hideAt, showAt)
    ensures forall k: PageKey :: Count(h1, k) == if k.0 in movers then MovedCount(Count(h0, k), k.1, hideAt, showAt)
                                                   else Count(h0, k)
  {
    forall k: PageKey
      ensures Count(h1, k) == if k.0 in movers then MovedCount(Count(h0, k), k.1, hideAt, showAt)
                                else Count(h0, k)
    {
      if k.0 in movers && hideAt == Some(k.1) {
        var u := k.0;
        assert (u, hideAt.value) in MovedKeys(movers, hideAt);
        assert k == (u, hideAt.value);
      }
    }
  }

  /** Moving one more player: the others' counts are not touched. */
  lemma MovedAllStep(h0: map<PageKey, nat>, h1: map<PageKey, nat>, movers: set<Uuid>, u: Uuid,
                     hideAt: Option<LeaderboardHologram>, showAt: Option<LeaderboardHologram>)
    requires MovedAll(h0, h1, movers, hideAt, showAt) && u !in movers
    ensures MovedAll(h0, Moved(h1, u, hideAt, showAt), movers + {u}, hideAt, showAt)
  {
    MovedAllEverywhere(h0, h1, movers, hideAt, showAt);
    MovedEntries(h1, u, hideAt, showAt);
    var h2 := Moved(h1, u, hideAt, showAt);
    forall k | k in h0.Keys + h2.Keys + MovedKeys(movers + {u}, hideAt)
      ensures Count(h2, k) == if k.0 in movers + {u} then MovedCount(Count(h0, k), k.1, hideAt, showAt)
                                else Count(h0, k)
    {
      if k.0 == u {
        assert Count(h2, (u, k.1)) == MovedCount(Count(h1, (u, k.1)), k.1, hideAt, showAt);
      }
    }
  }

  /** The pages after removePage(index): the others, in order. */
  function WithoutPage(pages: seq<LeaderboardHologram>, index: int): (r: seq<LeaderboardHologram>)
    requires 0 <= index < |pages|
    ensures |r| == |pages| - 1
    ensures forall i :: 0 <= i < |r| ==> r[i] == if i < index then pages[i] else pages[i + 1]
  {
    pages[..index] + pages[index + 1..]
  }

  // ---------------------------------------------------------------------
  // Seeing one page

  /** No page object is listed twice. */
  predicate Distinct(pages: seq<LeaderboardHologram>) {
    forall i, j :: 0 <= i < j < |pages| ==> pages[i] != pages[j]
  }

  /** The player sees page `cur` and no other: its count is 0 and every
      other page's is exactly 1, which a single show undoes. */
  ghost predicate OnPage(h: map<PageKey, nat>, pages: seq<LeaderboardHologram>, u: Uuid, cur: int) {
    forall i :: 0 <= i < |pages| ==> Count(h, (u, pages[i])) == if i == cur then 0 else 1
  }

  /** In a list without repeats each page occurs once. */
  lemma {:induction false} DistinctOnce(pages: seq<LeaderboardHologram>, i: int)
    requires Distinct(pages) && 0 <= i < |pages|
    ensures multiset(pages)[pages[i]] == 1
    decreases |pages|
  {
    var n := |pages| - 1;
    assert pages == pages[..n] + [pages[n]];
    if i == n {
      forall j | 0 <= j < n
        ensures pages[..n][j] != pages[n]
      {
      }
      assert pages[n] !in pages[..n];
    } else {
      DistinctOnce(pages[..n], i);
    }
  }

  /** switchToPage keeps a player on one page: from seeing page `cur` only,
      the player sees page `index` only. */
  lemma SwitchKeepsOnPage(h: map<PageKey, nat>, pages: seq<LeaderboardHologram>, u: Uuid, cur: int, index: int)
    requires Distinct(pages) && OnPage(h, pages, u, cur)
    requires 0 <= cur < |pages| && 0 <= index < |pages| && cur != index
    ensures OnPage(Switched(h, pages, u, cur, index), pages, u, index)
  {
    var h1 := AddEntry(h, (u, pages[cur]));
    EntryFrame(h, (u, pages[cur]));
    EntryFrame(h1, (u, pages[index]));
    forall i | 0 <= i < |pages|
      ensures Count(Switched(h, pages, u, cur, index), (u, pages[i])) == if i == index then 0 else 1
    {
      if i != cur {
        assert pages[i] != pages[cur];
        assert Count(h1, (u, pages[i])) == Count(h, (u, pages[i]));
      }
      if i != index {
        assert pages[i] != pages[index];
      }
    }
  }

  /** show, for a player no page has been hidden from (one who joins after
      init): the player sees the current page and no other. */
  lemma FirstShowPutsOnPage(h: map<PageKey, nat>, pages: seq<LeaderboardHologram>, u: Uuid, cur: int)
    requires Distinct(pages) && 0 <= cur < |pages|
    requires forall i :: 0 <= i < |pages| ==> Count(h, (u, pages[i])) == 0
    ensures OnPage(ShowCounts(h, pages, u, cur), pages, u, cur)
  {
    PagesHiddenEntries(h, u, pages);
    EntryFrame(PagesHidden(h, u, pages), (u, pages[cur]));
    forall i | 0 <= i < |pages|
      ensures Count(ShowCounts(h, pages, u, cur), (u, pages[i])) == if i == cur then 0 else 1
    {
      DistinctOnce(pages, i);
      if i != cur {
        assert pages[i] != pages[cur];
      }
    }
  }

  /** show does not undo hide: after hide then show, a player who saw page
      `cur` only is still blacklisted once from it, and three times from
      every other page. */
  lemma HideThenShowKeepsPageHidden(h: map<PageKey, nat>, pages: seq<LeaderboardHologram>, u: Uuid, cur: int)
    requires Distinct(pages) && OnPage(h, pages, u, cur) && 0 <= cur < |pages|
    ensures var after := ShowCounts(PagesHidden(h, u, pages), pages, u, cur);
            Count(after, (u, pages[cur])) == 1
            && forall i :: 0 <= i < |pages| && i != cur ==> Count(after, (u, pages[i])) == 3
  {
    var hidden := PagesHidden(h, u, pages);
    var after := ShowCounts(hidden, pages, u, cur);
    PagesHiddenEntries(h, u, pages);
    PagesHiddenEntries(hidden, u, pages);
    EntryFrame(PagesHidden(hidden, u, pages), (u, pages[cur]));
    DistinctOnce(pages, cur);
    forall i | 0 <= i < |pages| && i != cur
      ensures Count(after, (u, pages[i])) == 3
    {
      DistinctOnce(pages, i);
      assert pages[i] != pages[cur];
    }
  }

  /** show on a player who already sees page `cur` only leaves that page
      seen but every other page blacklisted twice, so the next switch
      leaves the player blacklisted from every page. */
  lemma RepeatedShowStacksEntries(h: map<PageKey, nat>, pages: seq<LeaderboardHologram>, u: Uuid,
                                  cur: int, index: int)
    requires Distinct(pages) && OnPage(h, pages, u, cur)
    requires 0 <= cur < |pages| && 0 <= index < |pages| && cur != index
    ensures var after := ShowCounts(h, pages, u, cur);
            Count(after, (u, pages[cur])) == 0
            && (forall i :: 0 <= i < |pages| && i != cur ==> Count(after, (u, pages[i])) == 2)
            && forall i :: 0 <= i < |pages| ==> Count(Switched(after, pages, u, cur, index), (u, pages[i])) > 0
  {
    var after := ShowCounts(h, pages, u, cur);
    var h1 := AddEntry(after, (u, pages[cur]));
    PagesHiddenEntries(h, u, pages);
    EntryFrame(PagesHidden(h, u, pages), (u, pages[cur]));
    EntryFrame(after, (u, pages[cur]));
    EntryFrame(h1, (u, pages[index]));
    DistinctOnce(pages, cur);
    forall i | 0 <= i < |pages| && i != cur
      ensures Count(after, (u, pages[i])) == 2
    {
      DistinctOnce(pages, i);
      assert pages[i] != pages[cur];
    }
    forall i | 0 <= i < |pages|
      ensures Count(Switched(after, pages, u, cur, index), (u, pages[i])) > 0
    {
      if i != cur {
        assert pages[i] != pages[cur];
        assert Count(h1, (u, pages[i])) == 2;
      }
      if i != index {
        assert pages[i] != pages[index];
      }
    }
  }

  /** init, for an online player listed once whom no page was hidden from:
      the player sees the first page and no other. */
  lemma InitPutsOnFirstPage(h: map<PageKey, nat>, pages: seq<LeaderboardHologram>, players: seq<Player>, u: Uuid)
    requires Distinct(pages) && pages != []
    requires UuidCount(players, u) == 1
    requires forall i :: 0 <= i < |pages| ==> Count(h, (u, pages[i])) == 0
    ensures OnPage(PageShownTo(PagesHiddenFrom(h, players, pages), players, pages[0]), pages, u, 0)
  {
    var g := PagesHiddenFrom(h, players, pages);
    PagesHiddenFromEntries(h, players, pages);
    PageShownToEntries(g, players, pages[0]);
    forall i | 0 <= i < |pages|
      ensures Count(PageShownTo(g, players, pages[0]), (u, pages[i])) == if i == 0 then 0 else 1
    {
      DistinctOnce(pages, i);
      assert Count(g, (u, pages[i])) == 1;
      if i != 0 {
        assert pages[i] != pages[0];
      }
    }
  }

  /** addPage keeps every online player (listed once) on their page, when
      the new page is a page no one was hidden from and not already
      listed. */
  lemma AddPageKeepsOnPage(h: map<PageKey, nat>, pages: seq<LeaderboardHologram>, page: LeaderboardHologram,
                           players: seq<Player>, u: Uuid, cur: int)
    requires Distinct(pages) && page !in pages
    requires OnPage(h, pages, u, cur) && 0 <= cur < |pages|
    requires UuidCount(players, u) == 1 && Count(h, (u, page)) == 0
    ensures Distinct(pages + [page])
    ensures OnPage(PageHiddenFrom(h, players, page), pages + [page], u, cur)
  {
    var ps := pages + [page];
    PageHiddenFromEntries(h, players, page);
    forall i | 0 <= i < |ps|
      ensures Count(PageHiddenFrom(h, players, page), (u, ps[i])) == if i == cur then 0 else 1
    {
      if i < |pages| {
        assert ps[i] == pages[i] && pages[i] != page;
      }
    }
  }

  /** removePage(0) as written: a player who saw the first page only is,
      afterwards, blacklisted from every remaining page, although their
      current page now reads 0. */
  lemma RemovingFirstPageStrandsViewers(h: map<PageKey, nat>, h1: map<PageKey, nat>, pages: seq<LeaderboardHologram>,
                                        players: seq<Player>, movers: set<Uuid>, u: Uuid)
    requires Distinct(pages) && |pages| >= 2 && OnPage(h, pages, u, 0)
    requires MovedAll(PageHiddenFrom(h, players, pages[0]), h1, movers,
                      SwitchHide(true, WithoutPage(pages, 0), 0), SwitchShow(true, WithoutPage(pages, 0), 0))
    ensures forall i :: 0 <= i < |pages| - 1 ==> Count(h1, (u, WithoutPage(pages, 0)[i])) == 1
  {
    var np := WithoutPage(pages, 0);
    PageHiddenFromEntries(h, players, pages[0]);
    MovedAllEverywhere(PageHiddenFrom(h, players, pages[0]), h1, movers, SwitchHide(true, np, 0), SwitchShow(true, np, 0));
    forall i | 0 <= i < |np|
      ensures Count(h1, (u, np[i])) == 1
    {
      assert np[i] == pages[i + 1] && pages[i + 1] != pages[0];
    }
  }

  /** removePage(index) as written, for an index between the first and the
      last page: a player of the removed page is shown the first page, but
      the page that slid into the removed page's place is hidden from them
      a second time, so once they move from the first page to it they are
      blacklisted from every page. */
  lemma RemovalDoubleHidesNextPage(h: map<PageKey, nat>, h1: map<PageKey, nat>, pages: seq<LeaderboardHologram>,
                                   players: seq<Player>, movers: set<Uuid>, u: Uuid, index: int)
    requires Distinct(pages) && 0 < index < |pages| - 1
    requires OnPage(h, pages, u, index) && u in movers
    requires MovedAll(PageHiddenFrom(h, players, pages[index]), h1, movers,
                      SwitchHide(true, WithoutPage(pages, index), index),
                      SwitchShow(true, WithoutPage(pages, index), index))
    ensures var np := WithoutPage(pages, index);
            Count(h1, (u, np[0])) == 0 && Count(h1, (u, np[index])) == 2
            && forall i :: 0 <= i < |np| ==> Count(Switched(h1, np, u, 0, index), (u, np[i])) > 0
  {
    var np := WithoutPage(pages, index);
    var h0 := PageHiddenFrom(h, players, pages[index]);
    PageHiddenFromEntries(h, players, pages[index]);
    MovedAllEverywhere(h0, h1, movers, SwitchHide(true, np, index), SwitchShow(true, np, index));
    forall i | 0 <= i < |np|
      ensures Count(h0, (u, np[i])) == 1
    {
      if i < index {
        assert np[i] == pages[i] && pages[i] != pages[index];
      } else {
        assert np[i] == pages[i + 1] && pages[i + 1] != pages[index];
      }
    }
    assert np[0] == pages[0] && np[index] == pages[index + 1];
    assert np[0] != np[index];
    var h2 := AddEntry(h1, (u, np[0]));
    EntryFrame(h1, (u, np[0]));
    EntryFrame(h2, (u, np[index]));
    forall i | 0 <= i < |np|
      ensures Count(Switched(h1, np, u, 0, index), (u, np[i])) > 0
    {
      if i != 0 {
        assert np[i] != np[0];
        assert Count(h1, (u, np[i])) >= 1;
      }
      if i != index {
        assert np[i] != np[index];
      }
    }
  }

  /** removePage with the evident intent: every player who saw one page
      only still does, the players of the removed page seeing the new
      first page, the others the page they were on, now one place earlier
      when it came after the removed one. */
  lemma CorrectedRemovalKeepsOnPage(h: map<PageKey, nat>, h1: map<PageKey, nat>, pages: seq<LeaderboardHologram>,
                                    players: seq<Player>, movers: set<Uuid>, u: Uuid, cur: int, index: int)
    requires Distinct(pages) && 0 <= index < |pages| && |pages| >= 2
    requires OnPage(h, pages, u, cur) && 0 <= cur < |pages|
    requires u in movers <==> cur == index
    requires MovedAll(PageHiddenFrom(h, players, pages[index]), h1, movers,
                      None, FirstPageShow(true, WithoutPage(pages, index)))
    ensures OnPage(h1, WithoutPage(pages, index), u, if cur == index then 0 else if cur > index then cur - 1 else cur)
  {
    var np := WithoutPage(pages, index);
    var target := if cur == index then 0 else if cur > index then cur - 1 else cur;
    PageHiddenFromEntries(h, players, pages[index]);
    MovedAllEverywhere(PageHiddenFrom(h, players, pages[index]), h1, movers, None, FirstPageShow(true, np));
    forall i | 0 <= i < |np|
      ensures Count(h1, (u, np[i])) == if i == target then 0 else 1
    {
      var j := if i < index then i else i + 1;
      assert np[i] == pages[j] && pages[j] != pages[index];
      if u in movers && i != 0 {
        assert np[i] != np[0];
      }
    }
  }

  // ---------------------------------------------------------------------
  // Who is shown what

  /** The (player, page) viewer pairs left after every page of `ps` is
      hidden from every player of `us`. */
  ghost function Dropped(v: set<PageKey>, us: set<Uuid>, ps: seq<LeaderboardHologram>): set<PageKey> {
    set x | x in v && !(x.0 in us && x.1 in ps)
  }

  /** Hiding one more page from the same players. */
  lemma DroppedPageStep(v: set<PageKey>, us: set<Uuid>, ps: seq<LeaderboardHologram>, p: LeaderboardHologram)
    ensures Dropped(Dropped(v, us, [p]), us, ps) == Dropped(v, us, ps + [p])
  {
  }

  /** Hiding the same page from one more player. */
  lemma DroppedPlayerStep(v: set<PageKey>, us: set<Uuid>, ps: seq<LeaderboardHologram>, u: Uuid)
    requires |ps| == 1
    ensures Dropped(v, us, ps) - {(u, ps[0])} == Dropped(v, us + {u}, ps)
  {
  }
  /** The uuids of one more player. */
  lemma UuidsOfSnoc(ps: seq<Player>, p: Player)
    ensures UuidsOf(ps + [p]) == UuidsOf(ps) + {p.uuid}
  {
    assert forall q :: q in ps + [p] <==> q in ps || q == p;
  }

  /** The players of `movers` each lose `hideAt` and gain `showAt`, when
      those are pages. */
  ghost function Reseated(v: set<PageKey>, movers: set<Uuid>,
                          hideAt: Option<LeaderboardHologram>, showAt: Option<LeaderboardHologram>)
    : set<PageKey>
  {
    (v - (if hideAt.Some? then set u | u in movers :: (u, hideAt.value) else {}))
    + (if showAt.Some? then set u | u in movers :: (u, showAt.value) else {})
  }

  /** One more mover, handled on its own: its pairs are not touched by the
      others'. */
  lemma ReseatStep(v: set<PageKey>, movers: set<Uuid>, u: Uuid,
                   hideAt: Option<LeaderboardHologram>, showAt: Option<LeaderboardHologram>)
    requires u !in movers
    ensures Reseated(v, movers + {u}, hideAt, showAt)
            == (Reseated(v, movers, hideAt, showAt) - (if hideAt.Some? then {(u, hideAt.value)} else {}))
               + (if showAt.Some? then {(u, showAt.value)} else {})
  {
  }

  /** The page map after removePage(index): the entries on the removed
      page are dropped, the later ones move down by one. */
  ghost function Shifted(m: map<Uuid, int>, index: int): map<Uuid, int> {
    map u | u in m && m[u] != index :: if m[u] > index then m[u] - 1 else m[u]
  }

  /** The page map part way through the removeIf walk: the entries still
      to visit as they were, the visited ones shifted. */
  ghost function PartlyShifted(m: map<Uuid, int>, index: int, todo: set<Uuid>): map<Uuid, int> {
    map u | u in m && (u in todo || m[u] != index) :: if u in todo || m[u] < index then m[u] else m[u] - 1
  }

  /** Visiting one more entry of the walk. */
  lemma ShiftStep(m: map<Uuid, int>, index: int, todo: set<Uuid>, u: Uuid)
    requires u in todo && u in m
    ensures var cur := PartlyShifted(m, index, todo);
            PartlyShifted(m, index, todo - {u})
            == if m[u] == index then cur - {u} else if m[u] > index then cur[u := m[u] - 1] else cur
  {
  }

  /** A page map whose every entry names an existing page keeps that
      property through a removal, and every kept entry still names the
      same page object. */
  lemma ShiftedKeepsPages(m: map<Uuid, int>, pages: seq<LeaderboardHologram>, index: int)
    requires 0 <= index < |pages|
    requires forall u :: u in m ==> 0 <= m[u] < |pages|
    ensures forall u :: u in Shifted(m, index) ==> 0 <= Shifted(m, index)[u] < |pages| - 1
    ensures forall u :: u in Shifted(m, index) ==>
              (pages[..index] + pages[index + 1..])[Shifted(m, index)[u]] == pages[m[u]]
    ensures forall u :: u in m ==> (u in Shifted(m, index) <==> m[u] != index)
  {
  }

  /** The page switchToPage(player, 0) hides from a player of the removed
      page, during the removal: the page that moved into the removed
      page's place, if any. */
  function SwitchHide(spawned: bool, newPages: seq<LeaderboardHologram>, index: int): (r: Option<LeaderboardHologram>)
    ensures r.Some? <==> spawned && 0 < index < |newPages|
  {
    if spawned && 0 < index < |newPages| then Some(newPages[index]) else None
  }

  /** The page switchToPage(player, 0) shows a player of the removed page,
      as written: nothing when the removed page was the first, because the
      player's entry still reads 0 and the switch returns early. */
  function SwitchShow(spawned: bool, newPages: seq<LeaderboardHologram>, index: int): (r: Option<LeaderboardHologram>)
    ensures r.Some? <==> spawned && index != 0 && newPages != []
    ensures r.Some? ==> r.value == newPages[0]
  {
    if spawned && index != 0 && newPages != [] then Some(newPages[0]) else None
  }

  /** The page a player of the removed page is evidently meant to be moved
      to: the new first page, whichever page was removed. */
  function FirstPageShow(spawned: bool, newPages: seq<LeaderboardHologram>): (r: Option<LeaderboardHologram>)
    ensures r.Some? <==> spawned && newPages != []
    ensures r.Some? ==> r.value == newPages[0]
  {
    if spawned && newPages != [] then Some(newPages[0]) else None
  }

  // ---------------------------------------------------------------------
  // The paged leaderboard object

  /** The PagedLeaderboard constructor: an id with a space throws. */
  method NewPagedLeaderboard(id: string) returns (r: Result<PagedLeaderboard>)
    ensures r.Ok? <==> !HasSpace(id)
    ensures r.Err? ==> r.error == ValidateId(id).error
    ensures r.Ok? ==> fresh(r.value) && r.value.baseId == id && r.value.pages == []
                      && r.value.playerCurrentPage == map[] && !r.value.spawned
                      && r.value.pageHides == map[] && r.value.arrowHides == map[] && r.value.boxHides == map[]
  {
    var v := ValidateId(id);
    if v.Fail? {
      return Err(v.error);
    }
    var b := new PagedLeaderboard(id);
    return Ok(b);
  }

  class PagedLeaderboard {
    const baseId: string
    /** The ids of the two arrows and of the two interaction boxes that
        turn the pages. */
    const leftArrowId: string
    const rightArrowId: string
    const leftInteractionId: string
    const rightInteractionId: string
    var pages: seq<LeaderboardHologram>
    var playerCurrentPage: map<Uuid, int>
    var spawned: bool
    var baseLocation: Option<Location>
    /** The blacklist entries each page holds for each player. A page
        forwards show and hide to all its components (the text lines, the
        background, the first-place head), so one count stands for all of
        them; the background, which the page forwards to twice, holds twice
        the count and is clear exactly when it is. The components are in
        render mode ALL: the next viewer pass shows a page to a nearby
        player exactly when the count is 0. */
    var pageHides: map<PageKey, nat>
    /** The (player, page) pairs the page's components hold as viewers: the
        last call for the pair was a show. The next viewer pass replaces
        them with what the counts allow. */
    var pageViewers: set<PageKey>
    /** The blacklist entries and the viewers of the two arrows, which get
        the same calls. */
    var arrowHides: map<Uuid, nat>
    var arrowViewers: set<Uuid>
    /** The blacklist entries and the viewers of the two interaction boxes,
        which get the same calls; InteractionBox.show adds an entry and
        hide removes one, as written. */
    var boxHides: map<Uuid, nat>
    var boxViewers: set<Uuid>

    /** No recorded page index is negative. */
    ghost predicate Valid()
      reads this
    {
      forall u :: u in playerCurrentPage ==> 0 <= playerCurrentPage[u]
    }

    /** Every recorded page index names an existing page. */
    ghost predicate InRange()
      reads this
    {
      forall u :: u in playerCurrentPage ==> 0 <= playerCurrentPage[u] < |pages|
    }

    /** getCurrentPage: the recorded page, 0 for a player without one. */
    function CurrentPage(u: Uuid): (r: int)
      reads this
      ensures u in playerCurrentPage ==> r == playerCurrentPage[u]
      ensures u !in playerCurrentPage ==> r == 0
    {
      if u in playerCurrentPage then playerCurrentPage[u] else 0
    }

    constructor(id: string)
      requires !HasSpace(id)
      ensures baseId == id
      ensures leftArrowId == id + "_left_arrow" && rightArrowId == id + "_right_arrow"
      ensures leftInteractionId == id + "_left_interact" && rightInteractionId == id + "_right_interact"
      ensures pages == [] && playerCurrentPage == map[] && !spawned && baseLocation.None?
      ensures pageHides == map[] && pageViewers == {}
      ensures arrowHides == map[] && arrowViewers == {} && boxHides == map[] && boxViewers == {}
    {
      baseId := id;
      leftArrowId := id + "_left_arrow";
      rightArrowId := id + "_right_arrow";
      leftInteractionId := id + "_left_interact";
      rightInteractionId := id + "_right_interact";
      pages := [];
      playerCurrentPage := map[];
      spawned := false;
      baseLocation := None;
      pageHides := map[];
      pageViewers := {};
      arrowHides := map[];
      arrowViewers := {};
      boxHides := map[];
      boxViewers := {};
    }

    /** switchToPage: nothing happens when the board is not spawned, has no
        pages, the index names no page or the player is already on it;
        otherwise the player's current page (when it exists) is hidden
        from them, the new one shown and recorded. */
    method SwitchToPage(u: Uuid, index: int)
      requires Valid()
      modifies this`pageHides, this`pageViewers, this`playerCurrentPage
      ensures !spawned || pages == [] || index < 0 || index >= |pages| || old(CurrentPage(u)) == index ==>
                pageHides == old(pageHides) && pageViewers == old(pageViewers)
                && playerCurrentPage == old(playerCurrentPage)
      ensures spawned && 0 <= index < |pages| && old(CurrentPage(u)) != index ==>
                var cur := old(CurrentPage(u));
                playerCurrentPage == old(playerCurrentPage)[u := index]
                && pageHides == Switched(old(pageHides), pages, u, cur, index)
                && pageViewers == (old(pageViewers) - (if cur < |pages| then {(u, pages[cur])} else {}))
                                  + {(u, pages[index])}
      ensures Valid()
      ensures old(InRange()) ==> InRange()
    {
      if !spawned || pages == [] || index < 0 || index >= |pages| {
        return;
      }
      var cur := CurrentPage(u);
      if cur == index {
        return;
      }
      if cur < |pages| {
        pageHides := AddEntry(pageHides, (u, pages[cur]));
        pageViewers := pageViewers - {(u, pages[cur])};
      }
      pageHides := DropEntry(pageHides, (u, pages[index]));
      pageViewers := pageViewers + {(u, pages[index])};
      playerCurrentPage := playerCurrentPage[u := index];
    }

    /** nextPage: on a spawned board with pages, the player is switched one
        page on, wrapping around (the click sound is not modelled). */
    method NextPage(u: Uuid)
      requires Valid()
      modifies this`pageHides, this`pageViewers, this`playerCurrentPage
      ensures !spawned || pages == [] || old(CurrentPage(u)) == NextIndex(old(CurrentPage(u)), |pages|) ==>
                pageHides == old(pageHides) && pageViewers == old(pageViewers)
                && playerCurrentPage == old(playerCurrentPage)
      ensures spawned && pages != [] && old(CurrentPage(u)) != NextIndex(old(CurrentPage(u)), |pages|) ==>
                var cur := old(CurrentPage(u));
                var next := NextIndex(cur, |pages|);
                0 <= next < |pages|
                && playerCurrentPage == old(playerCurrentPage)[u := next]
                && pageHides == Switched(old(pageHides), pages, u, cur, next)
                && pageViewers == (old(pageViewers) - (if cur < |pages| then {(u, pages[cur])} else {}))
                                  + {(u, pages[next])}
      ensures Valid()
      ensures old(InRange()) ==> InRange()
    {
      if !spawned || pages == [] {
        return;
      }
      var next := NextIndex(CurrentPage(u), |pages|);
      SwitchToPage(u, next);
    }

    /** previousPage: on a spawned board with pages, the player is switched
        one page back, wrapping around. */
    method PreviousPage(u: Uuid)
      requires Valid()
      modifies this`pageHides, this`pageViewers, this`playerCurrentPage
      ensures !spawned || pages == [] || old(CurrentPage(u)) == PrevIndex(old(CurrentPage(u)), |pages|) ==>
                pageHides == old(pageHides) && pageViewers == old(pageViewers)
                && playerCurrentPage == old(playerCurrentPage)
      ensures spawned && pages != [] && old(CurrentPage(u)) != PrevIndex(old(CurrentPage(u)), |pages|) ==>
                var cur := old(CurrentPage(u));
                var prev := PrevIndex(cur, |pages|);
                0 <= prev < |pages|
                && playerCurrentPage == old(playerCurrentPage)[u := prev]
                && pageHides == Switched(old(pageHides), pages, u, cur, prev)
                && pageViewers == (old(pageViewers) - (if cur < |pages| then {(u, pages[cur])} else {}))
                                  + {(u, pages[prev])}
      ensures Valid()
      ensures old(InRange()) ==> InRange()
    {
      if !spawned || pages == [] {
        return;
      }
      var prev := PrevIndex(CurrentPage(u), |pages|);
      SwitchToPage(u, prev);
    }

    /** onQuit: the player's page entry is forgotten. */
    method OnQuit(u: Uuid)
      modifies this`playerCurrentPage
      ensures playerCurrentPage == old(playerCurrentPage) - {u}
      requires Valid()
      ensures Valid()
      ensures old(InRange()) ==> InRange()
    {
      playerCurrentPage := playerCurrentPage - {u};
    }

    /** Every page hidden from one player. */
    method HidePages(u: Uuid)
      modifies this`pageHides, this`pageViewers
      ensures pageHides == PagesHidden(old(pageHides), u, pages)
      ensures pageViewers == Dropped(old(pageViewers), {u}, pages)
    {
      for i := 0 to |pages|
        invariant pageHides == PagesHidden(old(pageHides), u, pages[..i])
        invariant pageViewers == Dropped(old(pageViewers), {u}, pages[..i])
      {
        DroppedPageStep(old(pageViewers), {u}, pages[..i], pages[i]);
        DroppedPlayerStep(pageViewers, {}, [pages[i]], u);
        assert Dropped(pageViewers, {u}, [pages[i]]) == pageViewers - {(u, pages[i])};
        pageHides := AddEntry(pageHides, (u, pages[i]));
        pageViewers := pageViewers - {(u, pages[i])};
        assert pages[..i + 1] == pages[..i] + [pages[i]];
        assert pages[..i + 1][..i] == pages[..i];
      }
      assert pages[..|pages|] == pages;
    }

    /** One page hidden from every player of a list. */
    method HideFromAll(page: LeaderboardHologram, players: seq<Player>)
      modifies this`pageHides, this`pageViewers
      ensures pageHides == PageHiddenFrom(old(pageHides), players, page)
      ensures pageViewers == Dropped(old(pageViewers), UuidsOf(players), [page])
    {
      for j := 0 to |players|
        invariant pageHides == PageHiddenFrom(old(pageHides), players[..j], page)
        invariant pageViewers == Dropped(old(pageViewers), UuidsOf(players[..j]), [page])
      {
        DroppedPlayerStep(old(pageViewers), UuidsOf(players[..j]), [page], players[j].uuid);
        UuidsOfSnoc(players[..j], players[j]);
        pageHides := AddEntry(pageHides, (players[j].uuid, page));
        pageViewers := pageViewers - {(players[j].uuid, page)};
        assert players[..j + 1] == players[..j] + [players[j]];
        assert players[..j + 1][..j] == players[..j];
      }
      assert players[..|players|] == players;
    }

    /** show: on a spawned board every page is hidden from the player, the
        arrows shown (one blacklist entry fewer), the interaction boxes
        shown (one entry more, as InteractionBox.show is written), then the
        player's current page shown when it exists, or else, with pages
        left, a switch to the first. */
    method Show(u: Uuid)
      requires Valid()
      modifies this`pageHides, this`pageViewers, this`playerCurrentPage,
               this`arrowHides, this`arrowViewers, this`boxHides, this`boxViewers
      ensures !spawned ==> pageHides == old(pageHides) && pageViewers == old(pageViewers)
                           && playerCurrentPage == old(playerCurrentPage)
                           && arrowHides == old(arrowHides) && arrowViewers == old(arrowViewers)
                           && boxHides == old(boxHides) && boxViewers == old(boxViewers)
      ensures spawned ==> arrowHides == DropEntry(old(arrowHides), u) && arrowViewers == old(arrowViewers) + {u}
                          && boxHides == AddEntry(old(boxHides), u) && boxViewers == old(boxViewers) + {u}
      ensures spawned ==> pageHides == ShowCounts(old(pageHides), pages, u, old(CurrentPage(u)))
      ensures spawned ==> playerCurrentPage == if old(CurrentPage(u)) >= |pages| && pages != []
                                               then old(playerCurrentPage)[u := 0] else old(playerCurrentPage)
      ensures spawned ==> pageViewers == Dropped(old(pageViewers), {u}, pages)
                                         + if old(CurrentPage(u)) < |pages| then {(u, pages[old(CurrentPage(u))])}
                                           else if pages != [] then {(u, pages[0])} else {}
      ensures Valid()
      ensures old(InRange()) ==> InRange()
    {
      if !spawned {
        return;
      }
      HidePages(u);
      ShowControls(u);
      var cur := CurrentPage(u);
      if cur < |pages| {
        pageHides := DropEntry(pageHides, (u, pages[cur]));
        pageViewers := pageViewers + {(u, pages[cur])};
      } else if pages != [] {
        SwitchToPage(u, 0);
      }
    }

    /** hide: on a spawned board the interaction boxes are hidden (one
        blacklist entry fewer, as written), the arrows and every page
        hidden (one entry more each). */
    method Hide(u: Uuid)
      modifies this`pageHides, this`pageViewers, this`arrowHides, this`arrowViewers, this`boxHides, this`boxViewers
      ensures !spawned ==> pageHides == old(pageHides) && pageViewers == old(pageViewers)
                           && arrowHides == old(arrowHides) && arrowViewers == old(arrowViewers)
                           && boxHides == old(boxHides) && boxViewers == old(boxViewers)
      ensures spawned ==> boxHides == DropEntry(old(boxHides), u) && boxViewers == old(boxViewers) - {u}
                          && arrowHides == AddEntry(old(arrowHides), u) && arrowViewers == old(arrowViewers) - {u}
      ensures spawned ==> pageHides == PagesHidden(old(pageHides), u, pages)
                          && pageViewers == Dropped(old(pageViewers), {u}, pages)
    {
      if !spawned {
        return;
      }
      HideControls(u);
      HidePages(u);
    }

    /** The arrows shown to a player (one blacklist entry fewer) and the
        interaction boxes shown (one entry more, as InteractionBox.show is
        written). */
    method ShowControls(u: Uuid)
      modifies this`arrowHides, this`arrowViewers, this`boxHides, this`boxViewers
      ensures arrowHides == DropEntry(old(arrowHides), u) && arrowViewers == old(arrowViewers) + {u}
      ensures boxHides == AddEntry(old(boxHides), u) && boxViewers == old(boxViewers) + {u}
    {
      arrowHides := DropEntry(arrowHides, u);
      arrowViewers := arrowViewers + {u};
      boxHides := AddEntry(boxHides, u);
      boxViewers := boxViewers + {u};
    }

    /** The interaction boxes hidden from a player (one blacklist entry
        fewer, as InteractionBox.hide is written) and the arrows hidden (one
        entry more). */
    method HideControls(u: Uuid)
      modifies this`arrowHides, this`arrowViewers, this`boxHides, this`boxViewers
      ensures boxHides == DropEntry(old(boxHides), u) && boxViewers == old(boxViewers) - {u}
      ensures arrowHides == AddEntry(old(arrowHides), u) && arrowViewers == old(arrowViewers) - {u}
    {
      boxHides := DropEntry(boxHides, u);
      boxViewers := boxViewers - {u};
      arrowHides := AddEntry(arrowHides, u);
      arrowViewers := arrowViewers - {u};
    }

    /** onJoin: a player without a page entry is shown the board, as show
        does for a player on the first page. */
    method OnJoin(u: Uuid)
      requires Valid()
      modifies this`pageHides, this`pageViewers, this`playerCurrentPage,
               this`arrowHides, this`arrowViewers, this`boxHides, this`boxViewers
      ensures u in old(playerCurrentPage) || !spawned ==>
                pageHides == old(pageHides) && pageViewers == old(pageViewers)
                && playerCurrentPage == old(playerCurrentPage)
                && arrowHides == old(arrowHides) && arrowViewers == old(arrowViewers)
                && boxHides == old(boxHides) && boxViewers == old(boxViewers)
      ensures u !in old(playerCurrentPage) && spawned ==>
                arrowHides == DropEntry(old(arrowHides), u) && arrowViewers == old(arrowViewers) + {u}
                && boxHides == AddEntry(old(boxHides), u) && boxViewers == old(boxViewers) + {u}
                && pageHides == ShowCounts(old(pageHides), pages, u, 0)
                && playerCurrentPage == old(playerCurrentPage)
                && pageViewers == Dropped(old(pageViewers), {u}, pages) + if pages != [] then {(u, pages[0])} else {}
      ensures Valid()
      ensures old(InRange()) ==> InRange()
    {
      if u !in playerCurrentPage {
        Show(u);
      }
    }

    /** addPage: the page is appended; on a spawned board it is hidden from
        every online player (its move to the board's spot is not
        modelled). */
    method AddPage(page: LeaderboardHologram, server: Snapshot)
      modifies this`pages, this`pageHides, this`pageViewers
      ensures pages == old(pages) + [page]
      ensures !spawned ==> pageHides == old(pageHides) && pageViewers == old(pageViewers)
      ensures spawned ==> pageHides == PageHiddenFrom(old(pageHides), OnlinePlayers(server), page)
                          && pageViewers == Dropped(old(pageViewers), Online(server), [page])
      ensures old(InRange()) ==> InRange()
    {
      pages := pages + [page];
      if spawned {
        HideFromAll(page, OnlinePlayers(server));
      }
    }

    /** init: a spawned board, or one without pages, throws. Otherwise the
        board is placed and spawned, every page is hidden from every
        online player, and each online player is put on the first page and
        shown it. */
    method Init(loc: Location, server: Snapshot) returns (r: Outcome)
      requires Valid()
      modifies this`spawned, this`baseLocation, this`pageHides, this`pageViewers, this`playerCurrentPage
      ensures old(spawned) ==> r == Fail(IllegalState("PagedLeaderboard is already spawned!"))
      ensures !old(spawned) && pages == [] ==> r == Fail(IllegalState("No pages added to the leaderboard!"))
      ensures r.Fail? ==> spawned == old(spawned) && pageHides == old(pageHides) && pageViewers == old(pageViewers)
                          && playerCurrentPage == old(playerCurrentPage) && baseLocation == old(baseLocation)
      ensures r.Pass? <==> !old(spawned) && pages != []
      ensures r.Pass? ==> spawned && baseLocation == Some(loc)
      ensures r.Pass? && pages != [] ==>
                pageHides == PageShownTo(PagesHiddenFrom(old(pageHides), OnlinePlayers(server), pages),
                                         OnlinePlayers(server), pages[0])
      ensures r.Pass? ==> playerCurrentPage == old(playerCurrentPage) + map u | u in Online(server) :: 0
      ensures r.Pass? ==> forall u :: u in Online(server) ==> CurrentPage(u) == 0
      ensures r.Pass? ==> forall u :: u !in Online(server) ==> CurrentPage(u) == old(CurrentPage(u))
      ensures r.Pass? && pages != [] ==>
                pageViewers == Dropped(old(pageViewers), Online(server), pages) + set u | u in Online(server) :: (u, pages[0])
      ensures Valid()
      ensures old(InRange()) ==> InRange()
    {
      if spawned {
        return Fail(IllegalState("PagedLeaderboard is already spawned!"));
      }
      if pages == [] {
        return Fail(IllegalState("No pages added to the leaderboard!"));
      }
      baseLocation := Some(loc);
      spawned := true;
      ShowInitialPage(server);
      return Pass;
    }

    /** showInitialPage: every page hidden from every online player, then
        each online player recorded on the first page and shown it. */
    method ShowInitialPage(server: Snapshot)
      requires pages != []
      modifies this`pageHides, this`pageViewers, this`playerCurrentPage
      ensures playerCurrentPage == old(playerCurrentPage) + map u | u in Online(server) :: 0
      ensures pageHides == PageShownTo(PagesHiddenFrom(old(pageHides), OnlinePlayers(server), pages),
                                       OnlinePlayers(server), pages[0])
      ensures pageViewers == Dropped(old(pageViewers), Online(server), pages) + set u | u in Online(server) :: (u, pages[0])
    {
      var online := OnlinePlayers(server);
      HideAllFromAll(online);
      PutOnFirstPage(online);
    }

    /** Every page hidden from every player of a list, page by page. */
    method HideAllFromAll(players: seq<Player>)
      modifies this`pageHides, this`pageViewers
      ensures pageHides == PagesHiddenFrom(old(pageHides), players, pages)
      ensures pageViewers == Dropped(old(pageViewers), UuidsOf(players), pages)
    {
      for i := 0 to |pages|
        invariant pageHides == PagesHiddenFrom(old(pageHides), players, pages[..i])
        invariant pageViewers == Dropped(old(pageViewers), UuidsOf(players), pages[..i])
      {
        ghost var before := pageViewers;
        HideFromAll(pages[i], players);
        DroppedPageStep(before, UuidsOf(players), pages[..i], pages[i]);
        assert pages[..i + 1] == pages[..i] + [pages[i]];
        assert pages[..i + 1][..i] == pages[..i];
      }
      assert pages[..|pages|] == pages;
    }

    /** Each player of a list recorded on the first page and shown it. */
    method PutOnFirstPage(players: seq<Player>)
      requires pages != []
      modifies this`pageHides, this`pageViewers, this`playerCurrentPage
      ensures playerCurrentPage == old(playerCurrentPage) + map u | u in UuidsOf(players) :: 0
      ensures pageHides == PageShownTo(old(pageHides), players, pages[0])
      ensures pageViewers == old(pageViewers) + set u | u in UuidsOf(players) :: (u, pages[0])
    {
      FirstPageStart(old(playerCurrentPage), old(pageViewers), pages[0]);
      assert players[..0] == [];
      for j := 0 to |players|
        invariant playerCurrentPage == old(playerCurrentPage) + map u | u in UuidsOf(players[..j]) :: 0
        invariant pageHides == PageShownTo(old(pageHides), players[..j], pages[0])
        invariant pageViewers == old(pageViewers) + set u | u in UuidsOf(players[..j]) :: (u, pages[0])
      {
        UuidsOfSnoc(players[..j], players[j]);
        FirstPageStep(old(playerCurrentPage), old(pageViewers), UuidsOf(players[..j]), players[j].uuid, pages[0]);
        playerCurrentPage := playerCurrentPage[players[j].uuid := 0];
        pageHides := DropEntry(pageHides, (players[j].uuid, pages[0]));
        pageViewers := pageViewers + {(players[j].uuid, pages[0])};
        assert players[..j + 1] == players[..j] + [players[j]];
        assert players[..j + 1][..j] == players[..j];
      }
      assert players[..|players|] == players;
    }

    /** removePage as written: an index naming no page gives false.
        Otherwise the page is taken out and hidden from every online
        player; then each page entry is visited: an entry on the removed
        page is dropped, after switchToPage(player, 0) for an online
        player while pages remain, and an entry on a later page moves down
        by one. */
    method RemovePage(index: int, server: Snapshot) returns (ok: bool)
      requires Valid()
      modifies this`pages, this`playerCurrentPage, this`pageHides, this`pageViewers
      ensures Valid()
      ensures ok <==> 0 <= index < old(|pages|)
      ensures !ok ==> pages == old(pages) && playerCurrentPage == old(playerCurrentPage)
                      && pageHides == old(pageHides) && pageViewers == old(pageViewers)
      ensures ok ==> pages == WithoutPage(old(pages), index)
      ensures ok ==> playerCurrentPage == Shifted(old(playerCurrentPage), index)
      ensures ok ==> MovedAll(PageHiddenFrom(old(pageHides), OnlinePlayers(server), old(pages[index])), pageHides,
                              Movers(old(playerCurrentPage), index, server),
                              SwitchHide(spawned, pages, index), SwitchShow(spawned, pages, index))
      ensures ok ==> pageViewers == Reseated(Dropped(old(pageViewers), Online(server), [old(pages[index])]),
                                             Movers(old(playerCurrentPage), index, server),
                                             SwitchHide(spawned, pages, index), SwitchShow(spawned, pages, index))
    {
      if index < 0 || index >= |pages| {
        return false;
      }
      var removed := pages[index];
      pages := WithoutPage(pages, index);
      HideFromAll(removed, OnlinePlayers(server));
      RemoveEntries(index, server);
      return true;
    }

    /** The removeIf walk of removePage over the page entries, as written. */
    method RemoveEntries(index: int, server: Snapshot)
      requires Valid() && index >= 0
      modifies this`playerCurrentPage, this`pageHides, this`pageViewers
      ensures Valid()
      ensures playerCurrentPage == Shifted(old(playerCurrentPage), index)
      ensures MovedAll(old(pageHides), pageHides, Movers(old(playerCurrentPage), index, server),
                       SwitchHide(spawned, pages, index), SwitchShow(spawned, pages, index))
      ensures pageViewers == Reseated(old(pageViewers), Movers(old(playerCurrentPage), index, server),
                                      SwitchHide(spawned, pages, index), SwitchShow(spawned, pages, index))
    {
      ghost var m0 := playerCurrentPage;
      ghost var h0 := pageHides;
      ghost var v0 := pageViewers;
      ghost var hideAt := SwitchHide(spawned, pages, index);
      ghost var showAt := SwitchShow(spawned, pages, index);
      var todo := playerCurrentPage.Keys;
      while todo != {}
        invariant todo <= m0.Keys
        invariant playerCurrentPage == PartlyShifted(m0, index, todo)
        invariant Valid()
        invariant MovedAll(h0, pageHides, Movers(m0, index, server) - todo, hideAt, showAt)
        invariant pageViewers == Reseated(v0, Movers(m0, index, server) - todo, hideAt, showAt)
        decreases todo
      {
        ghost var some := Pick(todo);
        var u :| u in todo;
        assert u in playerCurrentPage;
        ShiftStep(m0, index, todo, u);
        MoverStep(m0, index, server, todo, u);
        ReseatStep(v0, Movers(m0, index, server) - todo, u, hideAt, showAt);
        if u in Movers(m0, index, server) {
          MovedAllStep(h0, pageHides, Movers(m0, index, server) - todo, u, hideAt, showAt);
        }
        RemoveEntry(u, index, server, hideAt, showAt);
        todo := todo - {u};
      }
      assert PartlyShifted(m0, index, {}) == Shifted(m0, index);
    }

    /** The removeIf step of removePage for one entry that has not been
        visited yet (its recorded page is still as it was). */
    method RemoveEntry(u: Uuid, index: int, server: Snapshot,
                       ghost hideAt: Option<LeaderboardHologram>, ghost showAt: Option<LeaderboardHologram>)
      requires u in playerCurrentPage
      requires hideAt == SwitchHide(spawned, pages, index) && showAt == SwitchShow(spawned, pages, index)
      requires Valid()
      modifies this`playerCurrentPage, this`pageHides, this`pageViewers
      ensures playerCurrentPage == if old(playerCurrentPage[u]) == index then old(playerCurrentPage) - {u}
                                   else if old(playerCurrentPage[u]) > index
                                   then old(playerCurrentPage)[u := old(playerCurrentPage[u]) - 1]
                                   else old(playerCurrentPage)
      ensures pageHides == if old(playerCurrentPage[u]) == index && u in Online(server)
                           then Moved(old(pageHides), u, hideAt, showAt) else old(pageHides)
      ensures pageViewers == if old(playerCurrentPage[u]) == index && u in Online(server)
                             then (old(pageViewers) - (if hideAt.Some? then {(u, hideAt.value)} else {}))
                                  + (if showAt.Some? then {(u, showAt.value)} else {})
                             else old(pageViewers)
    {
      var playerPage := playerCurrentPage[u];
      if playerPage == index {
        OnlineByUuid(server, u);
        if PlayerByUuid(server, u).Some? && pages != [] {
          SwitchToPage(u, 0);
        }
        playerCurrentPage := playerCurrentPage - {u};
        assert playerCurrentPage == old(playerCurrentPage) - {u};
      } else if playerPage > index {
        playerCurrentPage := playerCurrentPage[u := playerPage - 1];
      }
    }

    /** removePage with the evident intent: a player of the removed page is
        moved to the new first page whichever page was removed, and shown
        it; nothing is hidden from them a second time; everything else as
        written. */
    method RemovePageCorrected(index: int, server: Snapshot) returns (ok: bool)
      requires Valid()
      modifies this`pages, this`playerCurrentPage, this`pageHides, this`pageViewers
      ensures Valid()
      ensures ok <==> 0 <= index < old(|pages|)
      ensures !ok ==> pages == old(pages) && playerCurrentPage == old(playerCurrentPage)
                      && pageHides == old(pageHides) && pageViewers == old(pageViewers)
      ensures ok ==> pages == WithoutPage(old(pages), index)
      ensures ok ==> playerCurrentPage == Shifted(old(playerCurrentPage), index)
      ensures ok ==> MovedAll(PageHiddenFrom(old(pageHides), OnlinePlayers(server), old(pages[index])), pageHides,
                              Movers(old(playerCurrentPage), index, server), None, FirstPageShow(spawned, pages))
      ensures ok ==> pageViewers == Reseated(Dropped(old(pageViewers), Online(server), [old(pages[index])]),
                                             Movers(old(playerCurrentPage), index, server),
                                             None, FirstPageShow(spawned, pages))
    {
      if index < 0 || index >= |pages| {
        return false;
      }
      var removed := pages[index];
      pages := WithoutPage(pages, index);
      HideFromAll(removed, OnlinePlayers(server));
      RemoveEntriesCorrected(index, server);
      return true;
    }

    /** The removeIf walk with the correction: a player of the removed page
        who is online is shown the new first page directly. */
    method RemoveEntriesCorrected(index: int, server: Snapshot)
      requires Valid() && index >= 0
      modifies this`playerCurrentPage, this`pageHides, this`pageViewers
      ensures Valid()
      ensures playerCurrentPage == Shifted(old(playerCurrentPage), index)
      ensures MovedAll(old(pageHides), pageHides, Movers(old(playerCurrentPage), index, server),
                       None, FirstPageShow(spawned, pages))
      ensures pageViewers == Reseated(old(pageViewers), Movers(old(playerCurrentPage), index, server),
                                      None, FirstPageShow(spawned, pages))
    {
      ghost var m0 := playerCurrentPage;
      ghost var h0 := pageHides;
      ghost var v0 := pageViewers;
      ghost var showAt := FirstPageShow(spawned, pages);
      var todo := playerCurrentPage.Keys;
      while todo != {}
        invariant todo <= m0.Keys
        invariant playerCurrentPage == PartlyShifted(m0, index, todo)
        invariant Valid()
        invariant MovedAll(h0, pageHides, Movers(m0, index, server) - todo, None, showAt)
        invariant pageViewers == Reseated(v0, Movers(m0, index, server) - todo, None, showAt)
        decreases todo
      {
        ghost var some := Pick(todo);
        var u :| u in todo;
        assert u in playerCurrentPage;
        ShiftStep(m0, index, todo, u);
        MoverStep(m0, index, server, todo, u);
        ReseatStep(v0, Movers(m0, index, server) - todo, u, None, showAt);
        OnlineByUuid(server, u);
        var playerPage := playerCurrentPage[u];
        if playerPage == index {
          MovedAllStep(h0, pageHides, Movers(m0, index, server) - todo, u, None, showAt);
          if spawned && PlayerByUuid(server, u).Some? && pages != [] {
            pageHides := DropEntry(pageHides, (u, pages[0]));
            pageViewers := pageViewers + {(u, pages[0])};
          }
          playerCurrentPage := playerCurrentPage - {u};
        } else if playerPage > index {
          playerCurrentPage := playerCurrentPage[u := playerPage - 1];
        }
        todo := todo - {u};
      }
      assert PartlyShifted(m0, index, {}) == Shifted(m0, index);
    }
  }

  /** Nobody recorded on the first page yet. */
  lemma FirstPageStart(m: map<Uuid, int>, v: set<PageKey>, p: LeaderboardHologram)
    ensures m + (map u | u in UuidsOf([]) :: 0) == m
    ensures v + (set u | u in UuidsOf([]) :: (u, p)) == v
  {
    assert UuidsOf([]) == {};
  }

  /** Recording one more player on the first page. */
  lemma FirstPageStep(m: map<Uuid, int>, v: set<PageKey>, us: set<Uuid>, u: Uuid, p: LeaderboardHologram)
    ensures (m + map w | w in us :: 0)[u := 0] == m + map w | w in us + {u} :: 0
    ensures (v + set w | w in us :: (w, p)) + {(u, p)} == v + set w | w in us + {u} :: (w, p)
  {
  }

  /** Visiting one more entry adds its player to the movers handled so far
      exactly when it is a mover. */
  lemma MoverStep(m: map<Uuid, int>, index: int, server: Snapshot, todo: set<Uuid>, u: Uuid)
    requires u in todo
    ensures Movers(m, index, server) - (todo - {u})
            == (Movers(m, index, server) - todo) + (if u in Movers(m, index, server) then {u} else {})
    ensures u !in Movers(m, index, server) - todo
  {
  }

  /** The online players whose recorded page is the removed one. */
  ghost function Movers(m: map<Uuid, int>, index: int, server: Snapshot): set<Uuid> {
    set u | u in m && m[u] == index && u in Online(server)
  }
}

/** The personal-statistics screen (Frontend/public/pages/EstadisticasPersonales.js):
    the fold over the fetched games that produces totals, per-status counts,
    genre and platform rankings, the average score and the best and worst
    rated games, and the screen state around the fetch. */
module Statistics {
  import opened Wrappers
  import Text
  import opened GameRecord
  import Ordering

  // ---------------------------------------------------------------------------
  // Counting objects: `acc[key] = (acc[key] || 0) + 1`

  /** A JavaScript object used as a counter: its keys in insertion order (the
      order `Object.entries` lists them) and the count stored under each. */
  datatype Counter = Counter(keys: seq<string>, counts: map<string, nat>)

  /** One `[key, count]` pair of `Object.entries`. */
  datatype Entry = Entry(key: string, count: nat)

  predicate Distinct(s: seq<string>)
  {
    forall i, j :: 0 <= i < j < |s| ==> s[i] != s[j]
  }

  ghost predicate Valid(c: Counter)
  {
    Distinct(c.keys) && forall k :: k in c.counts <==> k in c.keys
  }

  /** Sum of the counts stored under `keys` (a missing key holds nothing). */
  function SumOver(keys: seq<string>, m: map<string, nat>): nat
  {
    if keys == [] then 0
    else
      var k := keys[|keys| - 1];
      SumOver(keys[..|keys| - 1], m) + (if k in m then m[k] else 0)
  }

  /** Sum of all counts of a counter. */
  function Total(c: Counter): nat
  {
    SumOver(c.keys, c.counts)
  }

  lemma {:induction false} SumOverAgree(keys: seq<string>, m: map<string, nat>, m': map<string, nat>)
    requires forall k :: k in keys ==> k in m && k in m' && m[k] == m'[k]
    ensures SumOver(keys, m) == SumOver(keys, m')
  {
    if keys != [] {
      SumOverAgree(keys[..|keys| - 1], m, m');
    }
  }

  lemma {:induction false} SumOverBump(keys: seq<string>, m: map<string, nat>, k: string)
    requires Distinct(keys) && k in keys
    requires forall x :: x in keys ==> x in m
    ensures SumOver(keys, m[k := m[k] + 1]) == SumOver(keys, m) + 1
  {
    var init := keys[..|keys| - 1];
    var m' := m[k := m[k] + 1];
    if keys[|keys| - 1] == k {
      assert k !in init;
      SumOverAgree(init, m, m');
    } else {
      assert k in init;
      SumOverBump(init, m, k);
    }
  }

  /** `acc[k] = (acc[k] || 0) + 1` on a counter: a new key goes to the end of
      the insertion order. */
  function Bump(c: Counter, k: string): Counter
  {
    if k in c.counts then Counter(c.keys, c.counts[k := c.counts[k] + 1])
    else Counter(c.keys + [k], c.counts[k := 1])
  }

  /** Bumping keeps the counter well formed, adds one to its total and to
      the count under `k` (a missing key counts as 0), and leaves every other
      count alone. */
  lemma BumpFacts(c: Counter, k: string)
    requires Valid(c)
    ensures Valid(Bump(c, k))
    ensures Total(Bump(c, k)) == Total(c) + 1
    ensures forall x :: x in Bump(c, k).counts <==> x in c.counts || x == k
    ensures Bump(c, k).counts[k] == (if k in c.counts then c.counts[k] else 0) + 1
    ensures forall x :: x in c.counts && x != k ==> Bump(c, k).counts[x] == c.counts[x]
  {
    BumpValid(c, k);
    BumpTotal(c, k);
  }

  lemma BumpValid(c: Counter, k: string)
    requires Valid(c)
    ensures Valid(Bump(c, k))
  {
  }

  lemma BumpTotal(c: Counter, k: string)
    requires Valid(c)
    ensures Total(Bump(c, k)) == Total(c) + 1
  {
    var r := Bump(c, k);
    if k in c.counts {
      SumOverBump(c.keys, c.counts, k);
    } else {
      assert r.keys[..|r.keys| - 1] == c.keys;
      SumOverAgree(c.keys, c.counts, r.counts);
    }
  }

  /** The counter the source's `reduce` builds from a sequence of keys,
      starting from the empty object. */
  function Tally(ts: seq<string>): Counter
  {
    if ts == [] then Counter([], map[])
    else Bump(Tally(ts[..|ts| - 1]), ts[|ts| - 1])
  }

  /** A counter is well formed and holds exactly the keys it was fed, each
      with the number of times it occurs; its counts add up to the number of
      keys fed. */
  lemma {:induction false} TallyCounts(ts: seq<string>)
    ensures var c := Tally(ts);
      && Valid(c)
      && (forall k :: k in c.counts <==> k in ts)
      && (forall k :: k in c.counts ==> c.counts[k] == multiset(ts)[k])
      && Total(c) == |ts|
  {
    if ts != [] {
      var init := ts[..|ts| - 1];
      var t := ts[|ts| - 1];
      TallyCounts(init);
      BumpFacts(Tally(init), t);
      SnocSplit(ts);
      assert multiset(ts) == multiset(init) + multiset{t};
    }
  }

  lemma SnocSplit<T>(s: seq<T>)
    requires s != []
    ensures s == s[..|s| - 1] + [s[|s| - 1]]
  {
  }

  lemma TallySnoc(ts: seq<string>, t: string)
    ensures Tally(ts + [t]) == Bump(Tally(ts), t)
  {
    assert (ts + [t])[..|ts|] == ts;
  }

  /** `Object.entries` of a counter. */
  function Entries(c: Counter): (r: seq<Entry>)
    requires Valid(c)
    ensures |r| == |c.keys|
    ensures forall i :: 0 <= i < |r| ==> r[i].key == c.keys[i] && r[i].count == c.counts[c.keys[i]]
  {
    seq(|c.keys|, i requires 0 <= i < |c.keys| => Entry(c.keys[i], c.counts[c.keys[i]]))
  }

  /** `Object.entries(...).sort(([, a], [, b]) => b - a)`. */
  function SortByCount(es: seq<Entry>): seq<Entry>
  {
    Ordering.Sort(es, CountKey, false)
  }

  function CountKey(e: Entry): Ordering.Key
  {
    Ordering.Num(e.count)
  }

  function Sign(x: int): int
  {
    if x < 0 then -1 else if x > 0 then 1 else 0
  }

  /** The comparator `(a, b) => b.x - a.x` has the sign of the descending
      comparator on numbers, so sorting with it sorts by non-increasing `x`. */
  lemma DescendingComparator(a: nat, b: nat)
    ensures Sign(b - a) == Ordering.Compare(Ordering.Num(a), Ordering.Num(b), false)
    ensures Ordering.Precedes(Ordering.Num(a), Ordering.Num(b), false) <==> a >= b
  {
  }

  /** Sorting the entries gives a permutation of them with non-increasing
      counts; entries with equal counts keep their insertion order. */
  lemma {:induction false} SortByCountCorrect(es: seq<Entry>)
    ensures multiset(SortByCount(es)) == multiset(es)
    ensures |SortByCount(es)| == |es|
    ensures forall i, j :: 0 <= i < j < |es| ==> SortByCount(es)[i].count >= SortByCount(es)[j].count
    ensures forall n: nat :: Ordering.WithKey(SortByCount(es), CountKey, Ordering.Num(n))
                          == Ordering.WithKey(es, CountKey, Ordering.Num(n))
  {
    Ordering.SortCorrect(es, CountKey, false);
    var s := SortByCount(es);
    forall i, j | 0 <= i < j < |es| ensures s[i].count >= s[j].count {
      DescendingComparator(s[i].count, s[j].count);
    }
  }

  // ---------------------------------------------------------------------------
  // The keys each game contributes

  /** `totalGames`. */
  function TotalGames(games: seq<Game>): nat
  {
    |games|
  }

  /** The status of every game, in order. */
  function Statuses(games: seq<Game>): (r: seq<string>)
    ensures |r| == |games|
    ensures forall i :: 0 <= i < |games| ==> r[i] == games[i].status
  {
    seq(|games|, i requires 0 <= i < |games| => games[i].status)
  }

  lemma StatusesSnoc(games: seq<Game>, i: nat)
    requires i < |games|
    ensures Statuses(games[..i + 1]) == Statuses(games[..i]) + [games[i].status]
  {
    var a := Statuses(games[..i + 1]);
    var b := Statuses(games[..i]) + [games[i].status];
    assert |a| == |b|;
    forall k | 0 <= k < |a| ensures a[k] == b[k] {
    }
  }

  /** Keep the non-empty strings (`.filter(Boolean)`). */
  function NonEmpty(ps: seq<string>): (r: seq<string>)
    ensures forall k :: 0 <= k < |r| ==> r[k] != []
    ensures forall x :: x in r <==> x in ps && x != []
    ensures forall x :: x != [] ==> multiset(r)[x] == multiset(ps)[x]
  {
    if ps == [] then []
    else
      assert ps == [ps[0]] + ps[1..];
      (if ps[0] != [] then [ps[0]] else []) + NonEmpty(ps[1..])
  }

  /** `map(g => g.trim())`. */
  function TrimAll(ps: seq<string>): (r: seq<string>)
    ensures |r| == |ps|
    ensures forall k :: 0 <= k < |ps| ==> r[k] == Text.Trim(ps[k])
  {
    if ps == [] then [] else [Text.Trim(ps[0])] + TrimAll(ps[1..])
  }

  /** `genre.split(',').map(g => g.trim()).filter(Boolean)`. */
  function GenreTokens(genre: string): seq<string>
  {
    NonEmpty(TrimAll(Text.Split(genre, ',')))
  }

  /** Every genre token is non-empty, has no surrounding white space and no
      comma, and is a trimmed piece of the comma-split text. */
  lemma GenreTokensShape(genre: string)
    ensures forall k :: 0 <= k < |GenreTokens(genre)| ==>
      var t := GenreTokens(genre)[k];
      t != [] && !Text.IsSpace(t[0]) && !Text.IsSpace(t[|t| - 1]) && ',' !in t
      && exists p :: p in Text.Split(genre, ',') && t == Text.Trim(p)
  {
    var pieces := Text.Split(genre, ',');
    var trimmed := TrimAll(pieces);
    forall k | 0 <= k < |GenreTokens(genre)|
      ensures var t := GenreTokens(genre)[k];
              t != [] && !Text.IsSpace(t[0]) && !Text.IsSpace(t[|t| - 1]) && ',' !in t
              && exists p :: p in pieces && t == Text.Trim(p)
    {
      var t := GenreTokens(genre)[k];
      assert t in trimmed;
      var m :| 0 <= m < |trimmed| && trimmed[m] == t;
      var p := pieces[m];
      assert p in pieces;
      assert ',' !in p;
      Text.TrimKeeps(p);
    }
  }

  /** What one game adds to the genre counter: nothing without a genre. */
  function GameGenres(g: Game): seq<string>
  {
    if g.genre != [] then GenreTokens(g.genre) else []
  }

  /** All genre tokens in the order the fold meets them. */
  function AllGenreTokens(games: seq<Game>): seq<string>
  {
    if games == [] then []
    else AllGenreTokens(games[..|games| - 1]) + GameGenres(games[|games| - 1])
  }

  /** Every genre key that is counted is non-empty. */
  lemma {:induction false} GenreKeysNonEmpty(games: seq<Game>)
    ensures forall t :: t in AllGenreTokens(games) ==> t != []
  {
    if games != [] {
      GenreKeysNonEmpty(games[..|games| - 1]);
    }
  }

  /** The platforms of the games that have one, in order. */
  function PlatformKeys(games: seq<Game>): seq<string>
  {
    if games == [] then []
    else
      var last := games[|games| - 1];
      PlatformKeys(games[..|games| - 1]) + (if last.platform != [] then [last.platform] else [])
  }

  /** The platform of every game, in order. */
  function Platforms(games: seq<Game>): (r: seq<string>)
    ensures |r| == |games|
    ensures forall i :: 0 <= i < |games| ==> r[i] == games[i].platform
  {
    seq(|games|, i requires 0 <= i < |games| => games[i].platform)
  }

  /** Every non-empty platform is fed to the counter once per game that has
      it. */
  lemma {:induction false} PlatformKeysCount(games: seq<Game>)
    ensures forall p :: p != [] ==> multiset(PlatformKeys(games))[p] == multiset(Platforms(games))[p]
  {
    if games != [] {
      var init := games[..|games| - 1];
      var last := games[|games| - 1];
      PlatformKeysCount(init);
      assert Platforms(games) == Platforms(init) + [last.platform];
    }
  }

  /** A platform is fed to the counter exactly when some game has it and it
      is not empty. */
  lemma {:induction false} PlatformKeysMembers(games: seq<Game>)
    ensures forall t :: t in PlatformKeys(games) <==> t != [] && exists i :: 0 <= i < |games| && games[i].platform == t
  {
    if games != [] {
      var init := games[..|games| - 1];
      PlatformKeysMembers(init);
      assert forall i :: 0 <= i < |init| ==> games[i] == init[i];
    }
  }

  lemma AllGenreTokensSnoc(games: seq<Game>, i: nat)
    requires i < |games|
    ensures AllGenreTokens(games[..i + 1]) == AllGenreTokens(games[..i]) + GameGenres(games[i])
  {
    assert games[..i + 1][..i] == games[..i];
  }

  lemma PlatformKeysSnoc(games: seq<Game>, i: nat)
    requires i < |games|
    ensures PlatformKeys(games[..i + 1])
         == PlatformKeys(games[..i]) + (if games[i].platform != [] then [games[i].platform] else [])
  {
    assert games[..i + 1][..i] == games[..i];
  }

  // ---------------------------------------------------------------------------
  // The three `reduce` calls that fill a counter object in place

  /** `gamesByStatus`. */
  method CountByStatus(games: seq<Game>) returns (acc: Counter)
    ensures acc == Tally(Statuses(games))
  {
    acc := Counter([], map[]);
    var i := 0;
    while i < |games|
      invariant 0 <= i <= |games|
      invariant acc == Tally(Statuses(games[..i]))
    {
      var key := games[i].status;
      StatusesSnoc(games, i);
      TallySnoc(Statuses(games[..i]), key);
      if key in acc.counts {
        acc := Counter(acc.keys, acc.counts[key := acc.counts[key] + 1]);
      } else {
        acc := Counter(acc.keys + [key], acc.counts[key := 1]);
      }
      i := i + 1;
    }
    assert games[..|games|] == games;
  }

  lemma PrefixSnoc(fed: seq<string>, ts: seq<string>, j: nat)
    requires j < |ts|
    ensures fed + ts[..j + 1] == (fed + ts[..j]) + [ts[j]]
  {
    assert ts[..j + 1] == ts[..j] + [ts[j]];
  }

  /** The inner `forEach` of `topGenres`: every token of one game is counted
      into the same object, in order. */
  method CountEach(acc0: Counter, ghost fed: seq<string>, ts: seq<string>) returns (acc: Counter)
    requires acc0 == Tally(fed)
    ensures acc == Tally(fed + ts)
  {
    acc := acc0;
    var j := 0;
    assert fed + ts[..j] == fed;
    while j < |ts|
      invariant 0 <= j <= |ts|
      invariant acc == Tally(fed + ts[..j])
    {
      var g := ts[j];
      ghost var cur := fed + ts[..j];
      PrefixSnoc(fed, ts, j);
      TallySnoc(cur, g);
      if g in acc.counts {
        acc := Counter(acc.keys, acc.counts[g := acc.counts[g] + 1]);
      } else {
        acc := Counter(acc.keys + [g], acc.counts[g := 1]);
      }
      j := j + 1;
    }
    assert ts[..|ts|] == ts;
  }

  /** `topGenres`: each game's genre text split on commas, trimmed, empty
      pieces dropped, every piece counted. */
  method CountGenres(games: seq<Game>) returns (acc: Counter)
    ensures acc == Tally(AllGenreTokens(games))
  {
    acc := Counter([], map[]);
    var i := 0;
    while i < |games|
      invariant 0 <= i <= |games|
      invariant acc == Tally(AllGenreTokens(games[..i]))
    {
      ghost var before := AllGenreTokens(games[..i]);
      AllGenreTokensSnoc(games, i);
      if games[i].genre != [] {
        acc := CountEach(acc, before, GenreTokens(games[i].genre));
      } else {
        assert before + GameGenres(games[i]) == before;
      }
      i := i + 1;
    }
    assert games[..|games|] == games;
  }

  /** `gamesByPlatform`: the whole platform text is the key; games without a
      platform are skipped. */
  method CountPlatforms(games: seq<Game>) returns (acc: Counter)
    ensures acc == Tally(PlatformKeys(games))
  {
    acc := Counter([], map[]);
    var i := 0;
    while i < |games|
      invariant 0 <= i <= |games|
      invariant acc == Tally(PlatformKeys(games[..i]))
    {
      var key := games[i].platform;
      PlatformKeysSnoc(games, i);
      ghost var before := PlatformKeys(games[..i]);
      if key != [] {
        TallySnoc(before, key);
          if key in acc.counts {
          acc := Counter(acc.keys, acc.counts[key := acc.counts[key] + 1]);
        } else {
          acc := Counter(acc.keys + [key], acc.counts[key := 1]);
        }
      } else {
        assert before + [] == before;
      }
      i := i + 1;
    }
    assert games[..|games|] == games;
  }

  /** Every game adds exactly 1 to the bucket of its status: the status
      buckets are exactly the statuses present, each holds the number of games
      with that status, and together they hold `totalGames`. */
  lemma StatusCountsSum(games: seq<Game>)
    ensures var c := Tally(Statuses(games));
      && Total(c) == TotalGames(games)
      && (forall s :: s in c.counts <==> exists i :: 0 <= i < |games| && games[i].status == s)
      && (forall s :: s in c.counts ==> c.counts[s] == multiset(Statuses(games))[s])
  {
    var st := Statuses(games);
    TallyCounts(st);
    forall s ensures s in st <==> exists i :: 0 <= i < |games| && games[i].status == s {
      if s in st {
        var i :| 0 <= i < |st| && st[i] == s;
        assert games[i].status == s;
      }
    }
  }

  /** Platform buckets count whole platform strings; a game without a
      platform is in no bucket. */
  lemma PlatformBuckets(games: seq<Game>)
    ensures var c := Tally(PlatformKeys(games));
      && (forall p :: p in c.counts <==> p != [] && exists i :: 0 <= i < |games| && games[i].platform == p)
      && [] !in c.counts
      && (forall p :: p in c.counts ==> c.counts[p] == multiset(Platforms(games))[p])
  {
    TallyCounts(PlatformKeys(games));
    PlatformKeysMembers(games);
    PlatformKeysCount(games);
  }

  /** Genre buckets: every key is a non-empty token and the counts add up to
      the number of tokens. A game with no genre adds nothing. */
  lemma {:induction false} GenreBuckets(games: seq<Game>, g: Game)
    requires g.genre == []
    ensures var c := Tally(AllGenreTokens(games));
      && (forall k :: k in c.counts ==> k != [])
      && Total(c) == |AllGenreTokens(games)|
    ensures AllGenreTokens(games + [g]) == AllGenreTokens(games)
  {
    TallyCounts(AllGenreTokens(games));
    GenreKeysNonEmpty(games);
    assert (games + [g])[..|games|] == games;
  }

  /** The genre text "RPG, Indie, " gives the buckets RPG and Indie. */
  lemma GenreExample()
    ensures GenreTokens("RPG, Indie, ") == ["RPG", "Indie"]
  {
    SplitExample();
    TrimAllExample();
    NonEmptyExample();
  }

  lemma TrimAllExample()
    ensures TrimAll(["RPG", " Indie", " "]) == ["RPG", "Indie", []]
  {
    TrimExample();
    var r := TrimAll(["RPG", " Indie", " "]);
    assert |r| == 3;
    assert r[0] == "RPG" && r[1] == "Indie" && r[2] == [];
  }

  lemma NonEmptyExample()
    ensures NonEmpty(["RPG", "Indie", []]) == ["RPG", "Indie"]
  {
    assert ["RPG", "Indie", []][1..] == ["Indie", []];
    assert ["Indie", []][1..] == [[]];
    assert NonEmpty([[]]) == [];
  }

  lemma SplitExample()
    ensures Text.Split("RPG, Indie, ", ',') == ["RPG", " Indie", " "]
  {
    assert "RPG, Indie, " == "RPG" + [','] + (" Indie" + [','] + " ");
    Text.SplitPiece("RPG", " Indie" + [','] + " ", ',');
    Text.SplitPiece(" Indie", " ", ',');
    Text.SplitNoSep(" ", ',');
  }

  lemma TrimExample()
    ensures Text.Trim("RPG") == "RPG" && Text.Trim(" Indie") == "Indie" && Text.Trim(" ") == []
  {
    TrimIndie();
    TrimRpg();
    assert Text.AllSpace(" ");
  }

  lemma TrimIndie()
    ensures Text.Trim(" Indie") == "Indie"
  {
    assert Text.IsSpace(' ') && !Text.IsSpace('I') && !Text.IsSpace('e');
    assert Text.LeadingSpaces("Indie") == 0;
    assert Text.LeadingSpaces(" Indie") == 1;
    assert Text.TrailingSpaces(" Indie") == 0;
    assert " Indie"[1..6] == "Indie";
  }

  lemma TrimRpg()
    ensures Text.Trim("RPG") == "RPG"
  {
    Text.TrimUnchanged("RPG");
  }

  // ---------------------------------------------------------------------------
  // Hours and scores

  /** `totalHoursPlayed`: the sum of `hoursPlayed || 0`. */
  function TotalHours(games: seq<Game>): nat
  {
    if games == [] then 0
    else TotalHours(games[..|games| - 1]) + OrZero(games[|games| - 1].hoursPlayed)
  }

  /** The hours sum is additive, a game without hours adds 0, and no game's
      hours exceed the total. */
  lemma {:induction false} TotalHoursFacts(a: seq<Game>, b: seq<Game>)
    ensures TotalHours(a + b) == TotalHours(a) + TotalHours(b)
    ensures forall i :: 0 <= i < |a| ==> OrZero(a[i].hoursPlayed) <= TotalHours(a)
  {
    if b != [] {
      assert (a + b)[..|a + b| - 1] == a + b[..|b| - 1];
      TotalHoursFacts(a, b[..|b| - 1]);
    } else {
      assert a + b == a;
    }
    if a != [] {
      TotalHoursFacts(a[..|a| - 1], []);
      forall i | 0 <= i < |a| ensures OrZero(a[i].hoursPlayed) <= TotalHours(a) {
        if i < |a| - 1 { assert a[..|a| - 1][i] == a[i]; }
      }
    }
  }

  /** `games.filter(game => game.score > 0)`. */
  function RatedGames(games: seq<Game>): seq<Game>
  {
    if games == [] then []
    else (if IsRated(games[0]) then [games[0]] else []) + RatedGames(games[1..])
  }

  /** The rated games are the games with a positive score, each kept as
      often as it occurs in the collection. */
  lemma {:induction false} RatedGamesFilter(games: seq<Game>)
    ensures forall g :: g in RatedGames(games) ==> IsRated(g) && g in games
    ensures forall g :: multiset(RatedGames(games))[g] == if IsRated(g) then multiset(games)[g] else 0
  {
    if games != [] {
      RatedGamesFilter(games[1..]);
      assert games == [games[0]] + games[1..];
    }
  }

  function ScoreOf(g: Game): nat
  {
    OrZero(g.score)
  }

  function ScoreSum(gs: seq<Game>): nat
  {
    if gs == [] then 0 else ScoreOf(gs[0]) + ScoreSum(gs[1..])
  }

  /** `averageScore`: the mean score of the rated games; with no rated game the
      source computes 0 / 0, which is NaN, and `|| 0` turns it into 0. */
  function AverageScore(games: seq<Game>): real
  {
    var rated := RatedGames(games);
    if |rated| == 0 then 0.0 else ScoreSum(rated) as real / |rated| as real
  }

  /** The average is 0 without rated games (no division by zero), and
      otherwise multiplying it by the number of rated games gives their score
      sum. */
  lemma AverageDefined(games: seq<Game>)
    ensures |RatedGames(games)| == 0 ==> AverageScore(games) == 0.0
    ensures |RatedGames(games)| > 0 ==>
      AverageScore(games) * |RatedGames(games)| as real == ScoreSum(RatedGames(games)) as real
  {
  }

  lemma {:induction false} ScoreSumBounds(gs: seq<Game>, hi: nat)
    requires forall i :: 0 <= i < |gs| ==> IsRated(gs[i]) && ScoreOf(gs[i]) <= hi
    ensures |gs| <= ScoreSum(gs) <= hi * |gs|
  {
    if gs != [] {
      ScoreSumBounds(gs[1..], hi);
    }
  }

  /** With scores of at most 5, the average of one or more rated games lies
      between 1 and 5. */
  lemma AverageBounds(games: seq<Game>)
    requires forall g :: g in games ==> ScoreOf(g) <= 5
    requires |RatedGames(games)| > 0
    ensures 1.0 <= AverageScore(games) <= 5.0
  {
    var rated := RatedGames(games);
    RatedScores(games);
    ScoreSumBounds(rated, 5);
    QuotientBounds(ScoreSum(rated) as real, |rated| as real, 5.0);
  }

  lemma RatedScores(games: seq<Game>)
    requires forall g :: g in games ==> ScoreOf(g) <= 5
    ensures forall i :: 0 <= i < |RatedGames(games)| ==>
      IsRated(RatedGames(games)[i]) && ScoreOf(RatedGames(games)[i]) <= 5
  {
    RatedGamesFilter(games);
    var rated := RatedGames(games);
    forall i | 0 <= i < |rated| ensures IsRated(rated[i]) && ScoreOf(rated[i]) <= 5 {
      assert rated[i] in rated;
    }
  }

  /** A sum between `n` and `hi * n` divided by `n` lies between 1 and `hi`. */
  lemma QuotientBounds(sum: real, n: real, hi: real)
    requires 0.0 < n && n <= sum <= hi * n
    ensures 1.0 <= sum / n <= hi
  {
    var q := sum / n;
    assert q * n == sum;
    if q < 1.0 {
      ScaleStrict(q, 1.0, n);
    }
    if q > hi {
      ScaleStrict(hi, q, n);
    }
  }

  lemma ScaleStrict(x: real, y: real, n: real)
    requires n > 0.0 && x < y
    ensures x * n < y * n
  {
  }

  function ScoreKey(g: Game): Ordering.Key
  {
    Ordering.Num(ScoreOf(g))
  }

  /** `gamesWithScores`: the rated games sorted by non-increasing score. */
  function GamesWithScores(games: seq<Game>): seq<Game>
  {
    Ordering.Sort(RatedGames(games), ScoreKey, false)
  }

  function Min(a: nat, b: nat): nat
  {
    if a < b then a else b
  }

  /** `bestGames`: the first three of `gamesWithScores`. */
  function BestGames(games: seq<Game>): seq<Game>
  {
    var ws := GamesWithScores(games);
    ws[..Min(3, |ws|)]
  }

  function Reverse<T>(s: seq<T>): (r: seq<T>)
    ensures |r| == |s|
    ensures forall k :: 0 <= k < |s| ==> r[k] == s[|s| - 1 - k]
  {
    seq(|s|, k requires 0 <= k < |s| => s[|s| - 1 - k])
  }

  /** `worstGames`: with more than three rated games the last three of
      `gamesWithScores`, reversed; otherwise none. */
  function WorstGames(games: seq<Game>): seq<Game>
  {
    var ws := GamesWithScores(games);
    if |ws| > 3 then Reverse(ws[|ws| - 3..]) else []
  }

  /** `gamesWithScores` is a permutation of the rated games, with games of
      equal score in collection order. */
  lemma GamesWithScoresPermutation(games: seq<Game>)
    ensures multiset(GamesWithScores(games)) == multiset(RatedGames(games))
    ensures |GamesWithScores(games)| == |RatedGames(games)|
    ensures forall n: nat :: Ordering.WithKey(GamesWithScores(games), ScoreKey, Ordering.Num(n))
                          == Ordering.WithKey(RatedGames(games), ScoreKey, Ordering.Num(n))
  {
    Ordering.SortCorrect(RatedGames(games), ScoreKey, false);
  }

  /** `gamesWithScores` holds rated games only, by non-increasing score. */
  lemma GamesWithScoresOrdered(games: seq<Game>)
    ensures |GamesWithScores(games)| == |RatedGames(games)|
    ensures forall i :: 0 <= i < |GamesWithScores(games)| ==> IsRated(GamesWithScores(games)[i])
    ensures forall i, j :: 0 <= i < j < |GamesWithScores(games)| ==>
      ScoreOf(GamesWithScores(games)[i]) >= ScoreOf(GamesWithScores(games)[j])
  {
    var rated := RatedGames(games);
    var ws := GamesWithScores(games);
    Ordering.SortCorrect(rated, ScoreKey, false);
    forall i, j | 0 <= i < j < |ws| ensures ScoreOf(ws[i]) >= ScoreOf(ws[j]) {
      DescendingComparator(ScoreOf(ws[i]), ScoreOf(ws[j]));
    }
    RatedGamesFilter(games);
    forall i | 0 <= i < |ws| ensures IsRated(ws[i]) {
      assert ws[i] in multiset(ws);
      assert ws[i] in rated;
    }
  }

  /** The best list holds min(3, n) rated games, in non-increasing score, and
      no game left out scores higher than any of them. */
  lemma BestGamesCorrect(games: seq<Game>)
    ensures |BestGames(games)| == Min(3, |RatedGames(games)|)
    ensures BestGames(games) == GamesWithScores(games)[..|BestGames(games)|]
    ensures forall i :: 0 <= i < |BestGames(games)| ==> IsRated(BestGames(games)[i])
    ensures forall i, j :: 0 <= i < |BestGames(games)| <= j < |GamesWithScores(games)| ==>
      ScoreOf(BestGames(games)[i]) >= ScoreOf(GamesWithScores(games)[j])
  {
    GamesWithScoresOrdered(games);
  }

  /** The worst list is empty for three or fewer rated games; otherwise it
      holds the three lowest, in ascending score, none above a game left out. */
  lemma WorstGamesCorrect(games: seq<Game>)
    ensures |GamesWithScores(games)| <= 3 ==> WorstGames(games) == []
    ensures |GamesWithScores(games)| > 3 ==>
      var worst := WorstGames(games);
      var ws := GamesWithScores(games);
      && |worst| == 3
      && (forall i :: 0 <= i < 3 ==> IsRated(worst[i]) && worst[i] == ws[|ws| - 1 - i])
      && (forall i, j :: 0 <= i < j < 3 ==> ScoreOf(worst[i]) <= ScoreOf(worst[j]))
      && (forall i, j :: 0 <= i < 3 && 0 <= j < |ws| - 3 ==> ScoreOf(worst[i]) <= ScoreOf(ws[j]))
  {
    GamesWithScoresOrdered(games);
    if |GamesWithScores(games)| > 3 {
      WorstOfOrdered(GamesWithScores(games));
    }
  }

  /** The last three of a list of rated games by non-increasing score,
      reversed, are its three lowest in ascending order. */
  lemma WorstOfOrdered(ws: seq<Game>)
    requires |ws| > 3
    requires forall i :: 0 <= i < |ws| ==> IsRated(ws[i])
    requires forall i, j :: 0 <= i < j < |ws| ==> ScoreOf(ws[i]) >= ScoreOf(ws[j])
    ensures var worst := Reverse(ws[|ws| - 3..]);
      && |worst| == 3
      && (forall i :: 0 <= i < 3 ==> IsRated(worst[i]) && worst[i] == ws[|ws| - 1 - i])
      && (forall i, j :: 0 <= i < j < 3 ==> ScoreOf(worst[i]) <= ScoreOf(worst[j]))
      && (forall i, j :: 0 <= i < 3 && 0 <= j < |ws| - 3 ==> ScoreOf(worst[i]) <= ScoreOf(ws[j]))
  {
    var k := |ws|;
    var worst := Reverse(ws[k - 3..]);
    forall i | 0 <= i < 3 ensures worst[i] == ws[k - 1 - i] {
      assert ws[k - 3..][2 - i] == ws[k - 1 - i];
    }
    forall i, j | 0 <= i < j < 3 ensures ScoreOf(worst[i]) <= ScoreOf(worst[j]) {
      assert k - 1 - j < k - 1 - i;
    }
    forall i, j | 0 <= i < 3 && 0 <= j < k - 3 ensures ScoreOf(worst[i]) <= ScoreOf(ws[j]) {
      assert j < k - 1 - i;
    }
  }

  /** Three games scored 5, unrated and 3: two are rated, the average is 4
      and the best list is the 5 then the 3. */
  lemma ScenarioThreeGames(a: Game, b: Game, c: Game)
    requires a.score == Some(5) && b.score == Some(0) && c.score == Some(3)
    ensures |RatedGames([a, b, c])| == 2
    ensures AverageScore([a, b, c]) == 4.0
    ensures BestGames([a, b, c]) == [a, c]
    ensures WorstGames([a, b, c]) == []
  {
    assert [a, b, c][1..] == [b, c];
    assert [b, c][1..] == [c];
    assert [c][1..] == [];
    assert IsRated(a) && !IsRated(b) && IsRated(c);
    assert RatedGames([c]) == [c];
    assert RatedGames([b, c]) == [c];
    assert RatedGames([a, b, c]) == [a, c];
    assert ScoreOf(a) == 5 && ScoreOf(c) == 3;
    assert ScoreSum([c]) == 3;
    assert ScoreSum([a, c]) == 8 by {
      assert [a, c][1..] == [c];
    }
    assert Ordering.Sort([c], ScoreKey, false) == [c];
    assert [a, c][1..] == [c];
    DescendingComparator(5, 3);
    assert Ordering.Sort([a, c], ScoreKey, false) == [a, c];
    assert GamesWithScores([a, b, c]) == [a, c];
  }

  // ---------------------------------------------------------------------------
  // The screen

  datatype StatsView =
    | Loading
    | Failed(message: string)
    | NoGames
    | Grid(total: nat, hours: nat, average: real, byStatus: seq<Entry>,
           genres: seq<Entry>, platforms: seq<Entry>, best: seq<Game>, worst: seq<Game>)

  class StatsScreen {
    var games: seq<Game>
    var loading: bool
    var error: Option<string>

    constructor ()
      ensures games == [] && loading && error == None
    {
      games := [];
      loading := true;
      error := None;
    }

    /** The start of `fetchGamesForStats`: loading on, error cleared. */
    method BeginFetch()
      modifies this
      ensures loading && error == None && games == old(games)
    {
      loading := true;
      error := None;
    }

    /** The end of `fetchGamesForStats`: the fetched games replace the list,
        or the error message is kept and the list stays; loading ends. */
    method FinishFetch(result: Result<seq<Game>>)
      modifies this
      ensures !loading
      ensures result.Ok? ==> games == result.value && error == old(error)
      ensures result.Err? ==> games == old(games) && error == Some(result.message)
    {
      match result {
        case Ok(data) => games := data;
        case Err(msg) => error := Some(msg);
      }
      loading := false;
    }

    /** `if (error)` on the stored message: an empty message is falsy and
        shows no error. */
    predicate HasError()
      reads this
    {
      error.Some? && error.value != []
    }

    /** What the screen shows: loading first, then the error, then the empty
        library message, then the statistics. */
    function View(): (v: StatsView)
      reads this
      ensures loading ==> v == Loading
      ensures !loading && HasError() ==> v == Failed(error.value)
      ensures !loading && !HasError() ==> (v == NoGames <==> |games| == 0)
      ensures v.Grid? ==> v.total == |games| && v.total > 0
    {
      if loading then Loading
      else if HasError() then Failed(error.value)
      else if TotalGames(games) == 0 then NoGames
      else
        TallyCounts(Statuses(games));
        TallyCounts(AllGenreTokens(games));
        TallyCounts(PlatformKeys(games));
        Grid(TotalGames(games), TotalHours(games), AverageScore(games),
             Entries(Tally(Statuses(games))),
             SortByCount(Entries(Tally(AllGenreTokens(games)))),
             SortByCount(Entries(Tally(PlatformKeys(games)))),
             BestGames(games), WorstGames(games))
    }
  }
}

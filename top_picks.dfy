/**
 * The "top picks" aggregation of the playlist controller: albums joined with their
 * tracks, summed plays, a release-recency filter, a descending sort on plays, a limit
 * of ten, the first artist's name attached, and a random-sample fallback when the
 * ranking comes out empty. Each pipeline stage is a pure function over in-memory
 * collections; the cutoff instant and the random sample are parameters.
 */
module TopPicks {
  import opened Common

  /** The fields of a track document the pipeline reads; `plays` defaults to 0. */
  datatype Track = Track(id: Id, plays: int, releaseDate: Option<int>)

  datatype Album = Album(id: Id, title: string, artist: Id, tracks: seq<Id>,
                         releaseDate: Option<int>, genre: seq<string>, coverArt: Option<string>)

  datatype Artist = Artist(id: Id, name: string)

  /** The BSON values the `$match` stage compares: numbers, dates (milliseconds) and null. */
  datatype Bson = BNumber(x: real) | BDate(t: int) | BNull

  /** An album after `$lookup` and `$addFields`: its joined tracks, summed plays and average release date. */
  datatype Annotated = Annotated(album: Album, trackData: seq<Track>, totalPlays: int, avgReleaseDate: Bson)

  /** A projected output record; `artist` is None when no artist document matched. */
  datatype Pick = Pick(id: Id, title: string, artist: Option<string>, coverArt: Option<string>,
                       releaseDate: Option<int>, genre: seq<string>)

  const TopLimit: nat := 10

  // ---------------------------------------------------------------- $lookup

  /** The track documents whose id occurs in the album's `tracks` list, in collection order. */
  function Lookup(a: Album, tracks: seq<Track>): (r: seq<Track>)
    ensures forall t :: t in r <==> t in tracks && t.id in a.tracks
    ensures |r| <= |tracks|
  {
    if tracks == [] then []
    else if tracks[0].id in a.tracks then [tracks[0]] + Lookup(a, tracks[1..])
    else Lookup(a, tracks[1..])
  }

  /** The join depends only on which ids the album references, not on their order or repetition. */
  lemma {:induction false} LookupOnlyReadsReferencedIds(a: Album, b: Album, tracks: seq<Track>)
    requires forall id :: id in a.tracks <==> id in b.tracks
    ensures Lookup(a, tracks) == Lookup(b, tracks)
  {
    if tracks != [] {
      LookupOnlyReadsReferencedIds(a, b, tracks[1..]);
    }
  }

  // ---------------------------------------------------------------- $sum / $avg

  /** The sum of `f` over a sequence of tracks. */
  function SumOf(ts: seq<Track>, f: Track -> int): int
  {
    if ts == [] then 0 else f(ts[0]) + SumOf(ts[1..], f)
  }

  function Plays(t: Track): int { t.plays }

  /** The release instant of a dated track, 0 for a track without one (which `$avg` skips). */
  function DatedInstant(t: Track): int { if t.releaseDate.Some? then t.releaseDate.value else 0 }

  function IsDated(t: Track): int { if t.releaseDate.Some? then 1 else 0 }

  lemma {:induction false} SumOfAppend(a: seq<Track>, b: seq<Track>, f: Track -> int)
    ensures SumOf(a + b, f) == SumOf(a, f) + SumOf(b, f)
  {
    if a == [] {
      assert a + b == b;
    } else {
      assert (a + b)[1..] == a[1..] + b;
      SumOfAppend(a[1..], b, f);
    }
  }

  /** A sum over the joined tracks does not depend on the order `$lookup` returns them in. */
  lemma {:induction false} SumOfPermutation(a: seq<Track>, b: seq<Track>, f: Track -> int)
    requires multiset(a) == multiset(b)
    ensures SumOf(a, f) == SumOf(b, f)
    decreases |a|
  {
    if a == [] {
      assert |b| == |multiset(b)| == 0;
    } else {
      var x := a[0];
      assert x in multiset(b);
      var i :| 0 <= i < |b| && b[i] == x;
      var rest := b[..i] + b[i + 1..];
      RemoveOneCount(a, b, i);
      SumOfPermutation(a[1..], rest, f);
      SumOfRemove(b, i, f);
    }
  }

  lemma RemoveOneCount(a: seq<Track>, b: seq<Track>, i: nat)
    requires a != [] && i < |b| && b[i] == a[0]
    requires multiset(a) == multiset(b)
    ensures multiset(a[1..]) == multiset(b[..i] + b[i + 1..])
  {
    assert b == b[..i] + [b[i]] + b[i + 1..];
    assert a == [a[0]] + a[1..];
    assert multiset(b) == multiset(b[..i]) + multiset{b[i]} + multiset(b[i + 1..]);
    assert multiset(a[1..]) == multiset(a) - multiset{a[0]};
  }

  lemma SumOfRemove(b: seq<Track>, i: nat, f: Track -> int)
    requires i < |b|
    ensures SumOf(b, f) == f(b[i]) + SumOf(b[..i] + b[i + 1..], f)
  {
    assert b == (b[..i] + [b[i]]) + b[i + 1..];
    SumOfAppend(b[..i] + [b[i]], b[i + 1..], f);
    SumOfAppend(b[..i], [b[i]], f);
    SumOfAppend(b[..i], b[i + 1..], f);
    assert SumOf([b[i]], f) == f(b[i]) by {
      assert [b[i]][1..] == [];
    }
  }

  /**
   * The average release instant of the dated tracks as a Date, truncated to the millisecond,
   * or null when no track has a release date.
   */
  function AverageInstant(ts: seq<Track>): Bson
  {
    var n := SumOf(ts, IsDated);
    if n <= 0 then BNull else BDate(SumOf(ts, DatedInstant) / n)
  }

  /** `$lookup` of the album's tracks and `$addFields` of `totalPlays` and `avgReleaseDate`. */
  function Annotate(a: Album, tracks: seq<Track>): (r: Annotated)
    ensures r.album == a
  {
    var data := Lookup(a, tracks);
    Annotated(a, data, SumOf(data, Plays), AverageInstant(data))
  }

  /** `$lookup` and `$addFields` applied to every album, in collection order. */
  function Candidates(albums: seq<Album>, tracks: seq<Track>): (r: seq<Annotated>)
    ensures |r| == |albums|
    ensures forall i :: 0 <= i < |r| ==> r[i] == Annotate(albums[i], tracks)
  {
    if albums == [] then [] else [Annotate(albums[0], tracks)] + Candidates(albums[1..], tracks)
  }

  // ---------------------------------------------------------------- $match

  /** `{ $gte: <Date> }` only matches Date values (comparison within one BSON type). */
  predicate GteDate(v: Bson, cutoff: int)
  {
    v.BDate? && v.t >= cutoff
  }

  /** The `$match` stage: the candidates whose `avgReleaseDate` is a Date on or after the cutoff, in order. */
  function MatchRecent(xs: seq<Annotated>, cutoff: int): (r: seq<Annotated>)
    ensures forall x :: x in r <==> x in xs && GteDate(x.avgReleaseDate, cutoff)
    ensures multiset(r) <= multiset(xs)
  {
    if xs == [] then []
    else
      assert xs == [xs[0]] + xs[1..];
      if GteDate(xs[0].avgReleaseDate, cutoff) then [xs[0]] + MatchRecent(xs[1..], cutoff)
      else MatchRecent(xs[1..], cutoff)
  }

  /**
   * The average release instant of the tracks is on or after `cutoff`, stated without
   * division: tracks without a release date do not take part, and an album with no
   * dated track has no average and is never eligible.
   */
  predicate Eligible(ts: seq<Track>, cutoff: int)
  {
    var n := SumOf(ts, IsDated);
    n > 0 && SumOf(ts, DatedInstant) >= cutoff * n
  }

  /** The division-free test agrees with comparing the real-valued average with the cutoff. */
  lemma EligibleIffAverageAtLeastCutoff(ts: seq<Track>, cutoff: int)
    ensures Eligible(ts, cutoff) <==>
            var n := SumOf(ts, IsDated);
            n > 0 && (SumOf(ts, DatedInstant) as real) / (n as real) >= cutoff as real
  {
    var n := SumOf(ts, IsDated);
    if n > 0 {
      RealAverageAtLeast(SumOf(ts, DatedInstant), n, cutoff);
    }
  }

  lemma RealAverageAtLeast(s: int, n: int, c: int)
    requires n > 0
    ensures (s as real) / (n as real) >= c as real <==> s >= c * n
  {
    var avg, nr := (s as real) / (n as real), n as real;
    assert avg * nr == s as real;
    assert (c * n) as real == (c as real) * nr;
    if avg >= c as real {
      assert (avg - c as real) * nr >= 0.0;
    } else {
      assert (c as real - avg) * nr > 0.0;
    }
  }

  /** An album passes `$match` exactly when its tracks' average release instant is on or after the cutoff. */
  lemma MatchIffEligible(a: Album, tracks: seq<Track>, cutoff: int)
    ensures GteDate(Annotate(a, tracks).avgReleaseDate, cutoff) <==> Eligible(Lookup(a, tracks), cutoff)
  {
    var ts := Lookup(a, tracks);
    var n := SumOf(ts, IsDated);
    if n > 0 {
      FloorDivAtLeast(SumOf(ts, DatedInstant), n, cutoff);
    }
  }

  lemma FloorDivAtLeast(s: int, n: int, c: int)
    requires n > 0
    ensures s / n >= c <==> s >= c * n
  {
    var q, m := s / n, s % n;
    assert s == n * q + m && 0 <= m < n;
    if q >= c {
      assert n * q >= n * c;
    } else {
      assert q <= c - 1;
      assert n * q <= n * (c - 1);
    }
  }

  // ---------------------------------------------------------------- $sort / $limit

  predicate SortedByPlays(xs: seq<Annotated>)
  {
    forall i, j :: 0 <= i < j < |xs| ==> xs[i].totalPlays >= xs[j].totalPlays
  }

  function Insert(x: Annotated, xs: seq<Annotated>): (r: seq<Annotated>)
    requires SortedByPlays(xs)
    ensures SortedByPlays(r)
    ensures forall y :: y in r ==> y == x || y in xs
    ensures multiset(r) == multiset(xs) + multiset{x}
  {
    if xs == [] then [x]
    else if x.totalPlays >= xs[0].totalPlays then [x] + xs
    else
      var tail := Insert(x, xs[1..]);
      assert xs == [xs[0]] + xs[1..];
      ConsSorted(xs[0], tail, xs[1..], x);
      [xs[0]] + tail
  }

  /** Putting the head back in front of the insertion into the tail keeps the order. */
  lemma ConsSorted(h: Annotated, tail: seq<Annotated>, rest: seq<Annotated>, x: Annotated)
    requires SortedByPlays([h] + rest) && SortedByPlays(tail)
    requires forall y :: y in tail ==> y == x || y in rest
    requires x.totalPlays < h.totalPlays
    ensures SortedByPlays([h] + tail)
  {
    forall y | y in rest ensures y.totalPlays <= h.totalPlays {
      var k :| 0 <= k < |rest| && rest[k] == y;
      assert ([h] + rest)[0] == h && ([h] + rest)[k + 1] == y;
    }
    var s := [h] + tail;
    forall i, j | 0 <= i < j < |s| ensures s[i].totalPlays >= s[j].totalPlays {
      if i == 0 {
        assert s[j] == tail[j - 1];
        assert s[j] in tail;
      } else {
        assert s[i] == tail[i - 1] && s[j] == tail[j - 1];
      }
    }
  }

  /** `$sort: { totalPlays: -1 }`; albums with equal plays keep their collection order. */
  function SortByPlays(xs: seq<Annotated>): (r: seq<Annotated>)
    ensures SortedByPlays(r)
    ensures multiset(r) == multiset(xs)
  {
    if xs == [] then []
    else
      assert xs == [xs[0]] + xs[1..];
      Insert(xs[0], SortByPlays(xs[1..]))
  }

  /** `$limit`: the first `n` entries, or all of them when there are fewer. */
  function Take(xs: seq<Annotated>, n: nat): (r: seq<Annotated>)
    ensures |r| == if |xs| <= n then |xs| else n
    ensures r == xs[..|r|]
  {
    if |xs| <= n then xs else xs[..n]
  }

  /** The primary ranking: recent candidates, most played first, at most ten. */
  function Ranking(albums: seq<Album>, tracks: seq<Track>, cutoff: int): seq<Annotated>
  {
    Rank(Candidates(albums, tracks), cutoff)
  }

  /** `$match`, `$sort` and `$limit` over annotated candidates. */
  function Rank(cands: seq<Annotated>, cutoff: int): seq<Annotated>
  {
    Take(SortByPlays(MatchRecent(cands, cutoff)), TopLimit)
  }

  // ---------------------------------------------------------------- artist lookup and $project

  /** `$arrayElemAt: ["$artistData.name", 0]`: the name of the first artist document with that id. */
  function ArtistName(artists: seq<Artist>, id: Id): (r: Option<string>)
    ensures r.None? <==> forall a :: a in artists ==> a.id != id
    ensures r.Some? ==> exists i :: 0 <= i < |artists| && artists[i].id == id && artists[i].name == r.value
                                    && forall j :: 0 <= j < i ==> artists[j].id != id
  {
    if artists == [] then None
    else if artists[0].id == id then Some(artists[0].name)
    else
      var r := ArtistName(artists[1..], id);
      assert forall a :: a in artists[1..] ==> a in artists;
      assert r.Some? ==> exists i :: 0 <= i < |artists[1..]| && artists[1..][i].id == id
                                    && artists[1..][i].name == r.value
                                    && forall j :: 0 <= j < i ==> artists[1..][j].id != id;
      if r.Some? then
        var i :| 0 <= i < |artists[1..]| && artists[1..][i].id == id && artists[1..][i].name == r.value
                 && forall j :: 0 <= j < i ==> artists[1..][j].id != id;
        assert artists[i + 1].id == id && artists[i + 1].name == r.value;
        assert forall j :: 0 <= j < i + 1 ==> artists[j].id != id by {
          forall j | 0 <= j < i + 1 ensures artists[j].id != id {
            if j > 0 {
              assert artists[j] == artists[1..][j - 1];
            }
          }
        }
        r
      else
        r
  }

  /** The `$project` stage: the album's id, title, cover, release date and genres, and its artist's name. */
  function Project(a: Album, artists: seq<Artist>): Pick
  {
    Pick(a.id, a.title, ArtistName(artists, a.artist), a.coverArt, a.releaseDate, a.genre)
  }

  function ProjectAll(albums: seq<Album>, artists: seq<Artist>): (r: seq<Pick>)
    ensures |r| == |albums|
    ensures forall i :: 0 <= i < |r| ==> r[i] == Project(albums[i], artists)
  {
    if albums == [] then [] else [Project(albums[0], artists)] + ProjectAll(albums[1..], artists)
  }

  function AlbumsOf(xs: seq<Annotated>): (r: seq<Album>)
    ensures |r| == |xs|
    ensures forall i :: 0 <= i < |r| ==> r[i] == xs[i].album
  {
    if xs == [] then [] else [xs[0].album] + AlbumsOf(xs[1..])
  }

  // ---------------------------------------------------------------- the handler

  /**
   * A possible outcome of `$sample: { size: 10 }`: ten albums of the collection, or all of
   * them when it holds fewer (MongoDB may repeat a document, so repetition is allowed).
   */
  predicate IsSample(sample: seq<Album>, albums: seq<Album>)
  {
    && |sample| == (if |albums| < TopLimit then |albums| else TopLimit)
    && forall a :: a in sample ==> a in albums
  }

  /** The projected primary ranking, or the projected sample when the ranking is empty. */
  function Respond(primary: seq<Annotated>, sample: seq<Album>, artists: seq<Artist>): seq<Pick>
  {
    if |primary| == 0 then ProjectAll(sample, artists) else ProjectAll(AlbumsOf(primary), artists)
  }

  /** The records returned as `topAlbums`, with `sample` standing for the random draw. */
  function GetTopPicks(albums: seq<Album>, tracks: seq<Track>, artists: seq<Artist>, cutoff: int,
                       sample: seq<Album>): seq<Pick>
  {
    Respond(Ranking(albums, tracks, cutoff), sample, artists)
  }

  // ---------------------------------------------------------------- properties

  /** An album's `totalPlays` is the sum of plays over exactly the tracks it references, in any order. */
  lemma TotalPlaysIsSumOverReferencedTracks(a: Album, tracks: seq<Track>, joined: seq<Track>)
    requires multiset(joined) == multiset(Lookup(a, tracks))
    ensures Annotate(a, tracks).totalPlays == SumOf(joined, Plays)
    ensures forall t :: t in joined <==> t in tracks && t.id in a.tracks
  {
    SumOfPermutation(joined, Lookup(a, tracks), Plays);
    assert forall t :: t in joined <==> t in multiset(Lookup(a, tracks));
  }

  /** The primary ranking holds only albums of the collection that pass the recency test. */
  lemma RankingOnlyEligible(albums: seq<Album>, tracks: seq<Track>, cutoff: int)
    ensures forall x :: x in Ranking(albums, tracks, cutoff) ==>
              x.album in albums && x == Annotate(x.album, tracks) && Eligible(x.trackData, cutoff)
  {
    var cands := Candidates(albums, tracks);
    var s := SortByPlays(MatchRecent(cands, cutoff));
    forall x | x in Ranking(albums, tracks, cutoff)
      ensures x.album in albums && x == Annotate(x.album, tracks) && Eligible(x.trackData, cutoff)
    {
      assert x in s;
      assert x in multiset(MatchRecent(cands, cutoff));
      var i :| 0 <= i < |cands| && cands[i] == x;
      MatchIffEligible(albums[i], tracks, cutoff);
    }
  }

  /** The primary ranking is ordered by plays, highest first, and has at most ten entries. */
  lemma RankingSortedAndBounded(albums: seq<Album>, tracks: seq<Track>, cutoff: int)
    ensures SortedByPlays(Ranking(albums, tracks, cutoff))
    ensures |Ranking(albums, tracks, cutoff)| <= TopLimit
  {
  }

  /** In a list sorted by plays, the first `n` entries hold everything or the `n` most played. */
  lemma TakeKeepsTheMostPlayed(s: seq<Annotated>, n: nat)
    requires SortedByPlays(s)
    requires n > 0
    ensures var r := Take(s, n);
            forall x :: x in s ==>
              (|r| < n ==> x in r) && (x !in r ==> x.totalPlays <= r[|r| - 1].totalPlays)
  {
    var r := Take(s, n);
    forall x | x in s && x !in r ensures x.totalPlays <= r[|r| - 1].totalPlays {
      var i :| 0 <= i < |s| && s[i] == x;
      assert i >= |r|;
      assert r[|r| - 1] == s[|r| - 1];
    }
  }

  /**
   * Top-ten completeness: with fewer than ten entries every eligible album is ranked, and
   * with ten no eligible album left out has more plays than the last one kept.
   */
  lemma RankingKeepsTheMostPlayed(albums: seq<Album>, tracks: seq<Track>, cutoff: int)
    ensures var r := Ranking(albums, tracks, cutoff);
            forall a :: a in albums && Eligible(Lookup(a, tracks), cutoff) ==>
              (|r| < TopLimit ==> Annotate(a, tracks) in r)
              && (Annotate(a, tracks) !in r ==> Annotate(a, tracks).totalPlays <= r[|r| - 1].totalPlays)
  {
    var f := MatchRecent(Candidates(albums, tracks), cutoff);
    var s := SortByPlays(f);
    TakeKeepsTheMostPlayed(s, TopLimit);
    EligibleAreMatched(albums, tracks, cutoff);
    forall a | a in albums && Eligible(Lookup(a, tracks), cutoff) ensures Annotate(a, tracks) in s {
      assert Annotate(a, tracks) in multiset(f);
    }
  }

  lemma EligibleAreMatched(albums: seq<Album>, tracks: seq<Track>, cutoff: int)
    ensures forall a :: a in albums && Eligible(Lookup(a, tracks), cutoff) ==>
              Annotate(a, tracks) in MatchRecent(Candidates(albums, tracks), cutoff)
  {
    var cands := Candidates(albums, tracks);
    forall a | a in albums && Eligible(Lookup(a, tracks), cutoff)
      ensures Annotate(a, tracks) in MatchRecent(cands, cutoff)
    {
      var k :| 0 <= k < |albums| && albums[k] == a;
      MatchIffEligible(a, tracks, cutoff);
      assert cands[k] in cands;
    }
  }

  /** The handler returns at most ten records on either path. */
  lemma AtMostTenPicks(albums: seq<Album>, tracks: seq<Track>, artists: seq<Artist>, cutoff: int,
                       sample: seq<Album>)
    requires IsSample(sample, albums)
    ensures |GetTopPicks(albums, tracks, artists, cutoff, sample)| <= TopLimit
  {
  }

  /** A catalogue with at least one album never gets an empty answer: the ranking or the sample fills it. */
  lemma AnswerNotEmpty(albums: seq<Album>, tracks: seq<Track>, artists: seq<Artist>, cutoff: int,
                       sample: seq<Album>)
    requires IsSample(sample, albums) && |albums| > 0
    ensures |GetTopPicks(albums, tracks, artists, cutoff, sample)| > 0
  {
  }

  /** The primary ranking is empty exactly when no album of the collection passes the recency test. */
  lemma {:induction false} RankingEmptyIffNoneEligible(albums: seq<Album>, tracks: seq<Track>, cutoff: int)
    ensures |Ranking(albums, tracks, cutoff)| == 0 <==>
            forall a :: a in albums ==> !Eligible(Lookup(a, tracks), cutoff)
  {
    var cands := Candidates(albums, tracks);
    var f := MatchRecent(cands, cutoff);
    var s := SortByPlays(f);
    assert |s| == |multiset(f)|;
    if |f| > 0 {
      assert f[0] in f;
      var k :| 0 <= k < |cands| && cands[k] == f[0];
      assert albums[k] in albums;
      MatchIffEligible(albums[k], tracks, cutoff);
    }
    forall a | a in albums && Eligible(Lookup(a, tracks), cutoff) ensures |f| > 0 {
      var k :| 0 <= k < |albums| && albums[k] == a;
      MatchIffEligible(a, tracks, cutoff);
      assert cands[k] in f;
    }
  }

  /**
   * The sample is used if and only if the primary ranking is empty: then the response is
   * the projected sample, and otherwise it is the projected ranking whatever the sample.
   */
  lemma FallbackIffNothingRanked(albums: seq<Album>, tracks: seq<Track>, artists: seq<Artist>, cutoff: int,
                                 sample: seq<Album>, other: seq<Album>)
    ensures var r := Ranking(albums, tracks, cutoff);
            && (|r| == 0 ==> GetTopPicks(albums, tracks, artists, cutoff, sample) == ProjectAll(sample, artists))
            && (|r| != 0 ==> GetTopPicks(albums, tracks, artists, cutoff, sample)
                             == GetTopPicks(albums, tracks, artists, cutoff, other)
                             == ProjectAll(AlbumsOf(r), artists))
  {
  }

  /** Every returned record is the projection of a ranked or sampled album of the collection. */
  lemma PicksComeFromTheCollection(albums: seq<Album>, tracks: seq<Track>, artists: seq<Artist>, cutoff: int,
                                   sample: seq<Album>)
    requires IsSample(sample, albums)
    ensures var picks := GetTopPicks(albums, tracks, artists, cutoff, sample);
            forall i :: 0 <= i < |picks| ==>
              exists a :: a in albums && picks[i] == Project(a, artists)
  {
    var r := Ranking(albums, tracks, cutoff);
    var picks := GetTopPicks(albums, tracks, artists, cutoff, sample);
    RankingOnlyEligible(albums, tracks, cutoff);
    forall i | 0 <= i < |picks| ensures exists a :: a in albums && picks[i] == Project(a, artists) {
      if |r| == 0 {
        assert sample[i] in sample;
        assert picks[i] == Project(sample[i], artists);
      } else {
        assert r[i] in r;
        assert picks[i] == Project(AlbumsOf(r)[i], artists);
      }
    }
  }

  // ---------------------------------------------------------------- $avg as MongoDB evaluates it

  /** `$trackData.releaseDate`: one Date per joined track that has a release date. */
  function ReleaseOperands(ts: seq<Track>): (r: seq<Bson>)
    ensures forall v :: v in r ==> v.BDate?
  {
    if ts == [] then []
    else if ts[0].releaseDate.Some? then [BDate(ts[0].releaseDate.value)] + ReleaseOperands(ts[1..])
    else ReleaseOperands(ts[1..])
  }

  function NumericCount(vs: seq<Bson>): nat
  {
    if vs == [] then 0 else (if vs[0].BNumber? then 1 else 0) + NumericCount(vs[1..])
  }

  function NumericSum(vs: seq<Bson>): real
  {
    if vs == [] then 0.0 else (if vs[0].BNumber? then vs[0].x else 0.0) + NumericSum(vs[1..])
  }

  /** `$avg`: the mean of the numeric operands; other operands are skipped, and none at all gives null. */
  function Avg(vs: seq<Bson>): Bson
  {
    var n := NumericCount(vs);
    if n == 0 then BNull else BNumber(NumericSum(vs) / (n as real))
  }

  /** `$addFields` as written: `avgReleaseDate` is `$avg` over the joined tracks' release Dates. */
  function AsWrittenAnnotate(a: Album, tracks: seq<Track>): (r: Annotated)
    ensures r.album == a
  {
    var data := Lookup(a, tracks);
    Annotated(a, data, SumOf(data, Plays), Avg(ReleaseOperands(data)))
  }

  function AsWrittenCandidates(albums: seq<Album>, tracks: seq<Track>): (r: seq<Annotated>)
    ensures |r| == |albums|
    ensures forall i :: 0 <= i < |r| ==> r[i] == AsWrittenAnnotate(albums[i], tracks)
  {
    if albums == [] then [] else [AsWrittenAnnotate(albums[0], tracks)] + AsWrittenCandidates(albums[1..], tracks)
  }

  /** The primary ranking as the pipeline is written. */
  function AsWrittenRanking(albums: seq<Album>, tracks: seq<Track>, cutoff: int): seq<Annotated>
  {
    Rank(AsWrittenCandidates(albums, tracks), cutoff)
  }

  function AsWrittenTopPicks(albums: seq<Album>, tracks: seq<Track>, artists: seq<Artist>, cutoff: int,
                             sample: seq<Album>): seq<Pick>
  {
    Respond(AsWrittenRanking(albums, tracks, cutoff), sample, artists)
  }

  lemma {:induction false} NoNumericOperands(vs: seq<Bson>)
    requires forall v :: v in vs ==> v.BDate?
    ensures NumericCount(vs) == 0
  {
    if vs != [] {
      assert vs[0] in vs;
      assert forall v :: v in vs[1..] ==> v in vs;
      NoNumericOperands(vs[1..]);
    }
  }

  /** As written, `avgReleaseDate` is always null, so no album passes `$match`. */
  lemma AsWrittenAverageIsNull(a: Album, tracks: seq<Track>, cutoff: int)
    ensures AsWrittenAnnotate(a, tracks).avgReleaseDate == BNull
    ensures !GteDate(AsWrittenAnnotate(a, tracks).avgReleaseDate, cutoff)
  {
    NoNumericOperands(ReleaseOperands(Lookup(a, tracks)));
  }

  /** As written, the primary ranking is always empty and the response is always the random sample. */
  lemma AsWrittenAlwaysFallsBack(albums: seq<Album>, tracks: seq<Track>, artists: seq<Artist>, cutoff: int,
                                 sample: seq<Album>)
    ensures AsWrittenRanking(albums, tracks, cutoff) == []
    ensures AsWrittenTopPicks(albums, tracks, artists, cutoff, sample) == ProjectAll(sample, artists)
  {
    var cands := AsWrittenCandidates(albums, tracks);
    forall x | x in cands ensures !GteDate(x.avgReleaseDate, cutoff) {
      var i :| 0 <= i < |cands| && cands[i] == x;
      AsWrittenAverageIsNull(albums[i], tracks, cutoff);
    }
    NothingRecentMatched(cands, cutoff);
  }

  /** As written, the answer is always the sample: ten albums, or the whole catalogue when it is smaller. */
  lemma AsWrittenAnswerSize(albums: seq<Album>, tracks: seq<Track>, artists: seq<Artist>, cutoff: int,
                            sample: seq<Album>)
    requires IsSample(sample, albums)
    ensures |AsWrittenTopPicks(albums, tracks, artists, cutoff, sample)| ==
            if |albums| < TopLimit then |albums| else TopLimit
  {
    AsWrittenAlwaysFallsBack(albums, tracks, artists, cutoff, sample);
  }

  lemma {:induction false} NothingRecentMatched(xs: seq<Annotated>, cutoff: int)
    requires forall x :: x in xs ==> !GteDate(x.avgReleaseDate, cutoff)
    ensures MatchRecent(xs, cutoff) == []
  {
    if xs != [] {
      assert xs[0] in xs;
      assert forall x :: x in xs[1..] ==> x in xs;
      NothingRecentMatched(xs[1..], cutoff);
    }
  }

  /**
   * An album with a dated track, all of whose dated tracks are recent, is ranked by the
   * intended test and rejected by the test as written.
   */
  lemma RecentAlbumIsEligible(a: Album, tracks: seq<Track>, cutoff: int)
    requires exists t :: t in Lookup(a, tracks) && t.releaseDate.Some?
    requires forall t :: t in Lookup(a, tracks) && t.releaseDate.Some? ==> t.releaseDate.value >= cutoff
    ensures GteDate(Annotate(a, tracks).avgReleaseDate, cutoff)
    ensures !GteDate(AsWrittenAnnotate(a, tracks).avgReleaseDate, cutoff)
  {
    var ts := Lookup(a, tracks);
    DatedBound(ts, cutoff);
    var t :| t in ts && t.releaseDate.Some?;
    SomeDated(ts, t);
    MatchIffEligible(a, tracks, cutoff);
    AsWrittenAverageIsNull(a, tracks, cutoff);
  }

  lemma {:induction false} DatedBound(ts: seq<Track>, cutoff: int)
    requires forall t :: t in ts && t.releaseDate.Some? ==> t.releaseDate.value >= cutoff
    ensures SumOf(ts, DatedInstant) >= cutoff * SumOf(ts, IsDated)
  {
    if ts != [] {
      assert forall t :: t in ts[1..] ==> t in ts;
      DatedBound(ts[1..], cutoff);
      assert ts[0] in ts;
      var c, rc := IsDated(ts[0]), SumOf(ts[1..], IsDated);
      assert DatedInstant(ts[0]) >= cutoff * c;
      assert cutoff * (c + rc) == cutoff * c + cutoff * rc;
    }
  }

  lemma {:induction false} SomeDated(ts: seq<Track>, t: Track)
    requires t in ts && t.releaseDate.Some?
    ensures SumOf(ts, IsDated) > 0
  {
    if t != ts[0] {
      SomeDated(ts[1..], t);
    }
    CountNonNegative(ts[1..]);
  }

  lemma {:induction false} CountNonNegative(ts: seq<Track>)
    ensures SumOf(ts, IsDated) >= 0
  {
    if ts != [] {
      CountNonNegative(ts[1..]);
    }
  }
}

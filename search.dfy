/**
 * The search controller (src/controllers/search.controller.js): query and type validation,
 * the per-collection find/count over an in-memory store, tagging and concatenation, the
 * page count, and the final ranking of the assembled list.
 */
module Search {
  import opened Common
  import opened SearchRanking

  /** The document field a collection is searched on. */
  datatype Field = Username | Title | Name

  datatype Mode = Federated | Single(kind: Kind)

  /** The four collections, each in stored order. */
  datatype Store = Store(users: seq<Doc>, tracks: seq<Doc>, artists: seq<Doc>, playlists: seq<Doc>)

  /** The assembled list before sorting, and the total match count. */
  datatype Gathered = Gathered(results: seq<Tagged>, total: nat)

  datatype Response = Response(results: seq<Tagged>, total: nat, page: int, limit: int, totalPages: Option<int>)

  const DefaultLimit: int := 10
  const DefaultPage: int := 1

  /** user -> username, track -> title, artist -> name, playlist -> name */
  function SearchField(k: Kind): Field {
    match k
    case UserKind => Username
    case TrackKind => Title
    case ArtistKind => Name
    case PlaylistKind => Name
  }

  function FieldValue(d: Doc, f: Field): string {
    match f
    case Username => d.username
    case Title => d.title
    case Name => d.name
  }

  function Collection(st: Store, k: Kind): seq<Doc> {
    match k
    case UserKind => st.users
    case TrackKind => st.tracks
    case ArtistKind => st.artists
    case PlaylistKind => st.playlists
  }

  /** The position of a kind in the federated concatenation. */
  function KindRank(k: Kind): nat {
    match k
    case UserKind => 0
    case TrackKind => 1
    case ArtistKind => 2
    case PlaylistKind => 3
  }

  /** A record as the schemas shape it: its search field is set, and no field that `username || title || name` reads first is. */
  predicate WellFormed(k: Kind, d: Doc) {
    match k
    case UserKind => d.username != ""
    case TrackKind => d.username == "" && d.title != ""
    case ArtistKind => d.username == "" && d.title == "" && d.name != ""
    case PlaylistKind => d.username == "" && d.title == "" && d.name != ""
  }

  /** The comparator ranks a well-formed record by the same field the search matched it on. */
  lemma DisplayIsSearchField(k: Kind, d: Doc)
    requires WellFormed(k, d)
    ensures DisplayField(d) == FieldValue(d, SearchField(k))
  {
  }

  /** `Model.find({ [field]: regex })` before paging: the records, in stored order, whose field is present and matches. */
  function Matching(docs: seq<Doc>, f: Field, re: string -> bool): (r: seq<Doc>)
    ensures |r| <= |docs|
    ensures forall d :: d in r <==> d in docs && FieldValue(d, f) != "" && re(FieldValue(d, f))
  {
    if docs == [] then []
    else
      var rest := Matching(docs[1..], f, re);
      if FieldValue(docs[0], f) != "" && re(FieldValue(docs[0], f)) then [docs[0]] + rest else rest
  }

  /** Every matching record is found as often as it is stored, and no other record is found. */
  lemma {:induction false} MatchingCounts(docs: seq<Doc>, f: Field, re: string -> bool)
    ensures forall d :: multiset(Matching(docs, f, re))[d] ==
              if FieldValue(d, f) != "" && re(FieldValue(d, f)) then multiset(docs)[d] else 0
  {
    if docs != [] {
      assert docs == [docs[0]] + docs[1..];
      MatchingCounts(docs[1..], f, re);
    }
  }

  /** The filter keeps stored order: matching a concatenation matches each part in turn. */
  lemma {:induction false} MatchingAppend(a: seq<Doc>, b: seq<Doc>, f: Field, re: string -> bool)
    ensures Matching(a + b, f, re) == Matching(a, f, re) + Matching(b, f, re)
  {
    if a == [] {
      assert a + b == b;
    } else {
      assert (a + b)[1..] == a[1..] + b;
      MatchingAppend(a[1..], b, f, re);
    }
  }

  function Abs(x: int): nat {
    if x < 0 then -x else x
  }

  /**
   * `.limit(limit).skip(skip)` as MongoDB applies them: skip first, then at most |limit|
   * records, where a limit of 0 means no limit.
   */
  function Page(docs: seq<Doc>, skip: nat, limit: int): (r: seq<Doc>)
    ensures limit != 0 ==> |r| <= Abs(limit)
    ensures skip >= |docs| ==> r == []
    ensures skip < |docs| ==> |r| == if limit == 0 || Abs(limit) >= |docs| - skip then |docs| - skip else Abs(limit)
    ensures forall i :: 0 <= i < |r| ==> skip + i < |docs| && r[i] == docs[skip + i]
  {
    var rest := if skip <= |docs| then docs[skip..] else [];
    if limit == 0 || Abs(limit) >= |rest| then rest else rest[..Abs(limit)]
  }

  /** `{ ...doc, type }` for every record of a page. */
  function Tag(docs: seq<Doc>, k: Kind): (r: seq<Tagged>)
    ensures |r| == |docs|
    ensures forall i :: 0 <= i < |r| ==> r[i] == Tagged(docs[i], k)
  {
    if docs == [] then [] else [Tagged(docs[0], k)] + Tag(docs[1..], k)
  }

  /** The `type` parameter: absent, empty or "all" searches everything; the four kind names search one collection. */
  function ParseMode(searchType: Option<string>): (m: Option<Mode>)
    ensures m.None? <==> searchType.Some? && searchType.value !in {"", "all", "user", "track", "artist", "playlist"}
    ensures m == Some(Federated) <==> searchType.None? || searchType.value in {"", "all"}
    ensures searchType == Some("user") ==> m == Some(Single(UserKind))
    ensures searchType == Some("track") ==> m == Some(Single(TrackKind))
    ensures searchType == Some("artist") ==> m == Some(Single(ArtistKind))
    ensures searchType == Some("playlist") ==> m == Some(Single(PlaylistKind))
  {
    if searchType.None? || searchType.value == "" || searchType.value == "all" then Some(Federated)
    else if searchType.value == "user" then Some(Single(UserKind))
    else if searchType.value == "track" then Some(Single(TrackKind))
    else if searchType.value == "artist" then Some(Single(ArtistKind))
    else if searchType.value == "playlist" then Some(Single(PlaylistKind))
    else None
  }

  /** The page one collection contributes, tagged with its kind. */
  function Fetch(st: Store, k: Kind, re: string -> bool, skip: nat, limit: int): seq<Tagged> {
    Tag(Page(Matching(Collection(st, k), SearchField(k), re), skip, limit), k)
  }

  /** The four counts added up. */
  function FederatedTotal(st: Store, re: string -> bool): nat {
    Count(st, UserKind, re) + Count(st, TrackKind, re) + Count(st, ArtistKind, re) + Count(st, PlaylistKind, re)
  }

  /** `Model.countDocuments({ [field]: regex })` */
  function Count(st: Store, k: Kind, re: string -> bool): nat {
    |Matching(Collection(st, k), SearchField(k), re)|
  }

  /**
   * Everything the handler does before `results.sort`. `re` is the outcome of compiling the
   * query as a case-insensitive regular expression: None when the constructor throws.
   */
  function Gather(st: Store, query: Option<string>, searchType: Option<string>, page: int, limit: int,
                  re: Option<string -> bool>): (r: Outcome<Gathered>)
    ensures r.Ok? ==> query.Some? && query.value != "" && re.Some? && ParseMode(searchType).Some?
    ensures r.Fail? ==> r.status in {400, 500}
  {
    if query.None? || query.value == "" then Fail(400, "Search query is required")
    else if re.None? then Fail(500, "Internal server error")
    else
      match ParseMode(searchType)
      case None => Fail(400, "Invalid search type")
      case Some(mode) =>
        var skip := (page - 1) * limit;
        if skip < 0 then Fail(500, "Internal server error")
        else
          match mode
          case Federated =>
            Ok(Gathered(
              Fetch(st, UserKind, re.value, skip, limit) + Fetch(st, TrackKind, re.value, skip, limit)
              + Fetch(st, ArtistKind, re.value, skip, limit) + Fetch(st, PlaylistKind, re.value, skip, limit),
              FederatedTotal(st, re.value)))
          case Single(k) =>
            Ok(Gathered(Fetch(st, k, re.value, skip, limit), Count(st, k, re.value)))
  }

  /** `Math.ceil(total / limit)`; None where JavaScript gets Infinity or NaN (a zero limit), which JSON writes as null. */
  function TotalPages(total: nat, limit: int): (r: Option<int>)
    ensures r.None? <==> limit == 0
  {
    if limit == 0 then None
    else if limit > 0 then Some((total + limit - 1) / limit)
    else Some(-(total / -limit))
  }

  /** The page count is the ceiling of total / limit: the least number of pages that holds every match. */
  lemma TotalPagesIsCeiling(total: nat, limit: int)
    requires limit != 0
    ensures var c := TotalPages(total, limit).value;
            && (limit > 0 ==> c * limit >= total && (c - 1) * limit < total)
            && (limit < 0 ==> c * limit <= total && (c - 1) * limit > total)
            && (total == 0 ==> c == 0)
  {
    var c := TotalPages(total, limit).value;
    if limit > 0 {
      var q, r := (total + limit - 1) / limit, (total + limit - 1) % limit;
      assert total + limit - 1 == q * limit + r && 0 <= r < limit;
      assert c == q;
      assert (q - 1) * limit == q * limit - limit;
    } else {
      var m := -limit;
      var q, r := total / m, total % m;
      assert total == q * m + r && 0 <= r < m;
      assert c == -q;
      assert c * limit == q * m;
      assert (c - 1) * limit == q * m + m;
    }
  }

  /** The records of one kind in a list, in order. */
  function OfKind(s: seq<Tagged>, k: Kind): (r: seq<Tagged>)
    ensures |r| <= |s|
  {
    if s == [] then [] else (if s[0].kind == k then [s[0]] else []) + OfKind(s[1..], k)
  }

  lemma {:induction false} OfKindAppend(a: seq<Tagged>, b: seq<Tagged>, k: Kind)
    ensures OfKind(a + b, k) == OfKind(a, k) + OfKind(b, k)
  {
    if a == [] {
      assert a + b == b;
    } else {
      var head := if a[0].kind == k then [a[0]] else [];
      calc {
        OfKind(a + b, k);
        { assert (a + b)[0] == a[0] && (a + b)[1..] == a[1..] + b; }
        head + OfKind(a[1..] + b, k);
        { OfKindAppend(a[1..], b, k); }
        head + (OfKind(a[1..], k) + OfKind(b, k));
        (head + OfKind(a[1..], k)) + OfKind(b, k);
      }
    }
  }

  lemma {:induction false} OfKindTag(docs: seq<Doc>, tag: Kind, k: Kind)
    ensures OfKind(Tag(docs, tag), k) == if tag == k then Tag(docs, tag) else []
  {
    if docs != [] {
      var t := Tag(docs, tag);
      assert t[1..] == Tag(docs[1..], tag);
      OfKindTag(docs[1..], tag, k);
    }
  }

  /** The federated concatenation: users, then tracks, then artists, then playlists. */
  function Concat4(du: seq<Doc>, dt: seq<Doc>, da: seq<Doc>, dp: seq<Doc>): seq<Tagged> {
    Tag(du, UserKind) + Tag(dt, TrackKind) + Tag(da, ArtistKind) + Tag(dp, PlaylistKind)
  }

  /** In the concatenation the kinds never go back: every user before every track, and so on. */
  lemma Concat4Ordered(du: seq<Doc>, dt: seq<Doc>, da: seq<Doc>, dp: seq<Doc>)
    ensures var s := Concat4(du, dt, da, dp);
            forall i, j :: 0 <= i < j < |s| ==> KindRank(s[i].kind) <= KindRank(s[j].kind)
  {
    var s := Concat4(du, dt, da, dp);
    var n1, n2, n3 := |du|, |du| + |dt|, |du| + |dt| + |da|;
    forall i | 0 <= i < |s|
      ensures KindRank(s[i].kind) == if i < n1 then 0 else if i < n2 then 1 else if i < n3 then 2 else 3
    {
      if i < n1 {
        assert s[i] == Tag(du, UserKind)[i];
      } else if i < n2 {
        assert s[i] == Tag(dt, TrackKind)[i - n1];
      } else if i < n3 {
        assert s[i] == Tag(da, ArtistKind)[i - n2];
      } else {
        assert s[i] == Tag(dp, PlaylistKind)[i - n3];
      }
    }
  }

  /** Picking one kind out of the concatenation gives back that kind's page. */
  lemma Concat4OfKind(du: seq<Doc>, dt: seq<Doc>, da: seq<Doc>, dp: seq<Doc>, k: Kind)
    ensures OfKind(Concat4(du, dt, da, dp), k)
         == match k
            case UserKind => Tag(du, k)
            case TrackKind => Tag(dt, k)
            case ArtistKind => Tag(da, k)
            case PlaylistKind => Tag(dp, k)
  {
    var u, t, a, p := Tag(du, UserKind), Tag(dt, TrackKind), Tag(da, ArtistKind), Tag(dp, PlaylistKind);
    OfKindAppend(u + t + a, p, k);
    OfKindAppend(u + t, a, k);
    OfKindAppend(u, t, k);
    OfKindTag(du, UserKind, k);
    OfKindTag(dt, TrackKind, k);
    OfKindTag(da, ArtistKind, k);
    OfKindTag(dp, PlaylistKind, k);
  }

  /** A missing or empty query is answered 400 whatever the store holds. */
  lemma MissingQueryRejected(st: Store, query: Option<string>, searchType: Option<string>, page: int, limit: int,
                             re: Option<string -> bool>)
    requires query.None? || query.value == ""
    ensures Gather(st, query, searchType, page, limit, re) == Fail(400, "Search query is required")
  {
  }

  /** An unknown type is answered 400 whatever the store holds, once the query compiled. */
  lemma InvalidTypeRejected(st: Store, query: string, searchType: string, page: int, limit: int, re: string -> bool)
    requires query != ""
    requires searchType !in {"", "all", "user", "track", "artist", "playlist"}
    ensures Gather(st, Some(query), Some(searchType), page, limit, Some(re)) == Fail(400, "Invalid search type")
  {
  }

  /**
   * Federated mode: the list is the users page, then the tracks, artists and playlists
   * pages, each record tagged with its kind; each kind contributes exactly its own page of
   * at most |limit| records, taken after skipping (page - 1) * limit; the total is the sum
   * of the four match counts.
   */
  lemma FederatedLayout(st: Store, query: Option<string>, searchType: Option<string>, page: int, limit: int,
                        re: Option<string -> bool>)
    requires Gather(st, query, searchType, page, limit, re).Ok?
    requires ParseMode(searchType) == Some(Federated)
    ensures var g := Gather(st, query, searchType, page, limit, re).value;
            && (page - 1) * limit >= 0
            && (forall i, j :: 0 <= i < j < |g.results| ==> KindRank(g.results[i].kind) <= KindRank(g.results[j].kind))
            && (forall k :: OfKind(g.results, k) == Fetch(st, k, re.value, (page - 1) * limit, limit))
            && (forall k :: limit != 0 ==> |OfKind(g.results, k)| <= Abs(limit))
            && g.total == Count(st, UserKind, re.value) + Count(st, TrackKind, re.value)
                          + Count(st, ArtistKind, re.value) + Count(st, PlaylistKind, re.value)
  {
    GatherFederated(st, query, searchType, page, limit, re);
    var g := Gather(st, query, searchType, page, limit, re).value;
    var skip := (page - 1) * limit;
    var f := re.value;
    var du, dt := Page(Matching(st.users, Username, f), skip, limit), Page(Matching(st.tracks, Title, f), skip, limit);
    var da, dp := Page(Matching(st.artists, Name, f), skip, limit), Page(Matching(st.playlists, Name, f), skip, limit);
    Concat4Ordered(du, dt, da, dp);
    forall k
      ensures OfKind(g.results, k) == Fetch(st, k, f, skip, limit)
      ensures limit != 0 ==> |OfKind(g.results, k)| <= Abs(limit)
    {
      Concat4OfKind(du, dt, da, dp, k);
    }
  }

  /** Federated mode unfolded: the concatenation of the four pages and the sum of the four counts. */
  lemma GatherFederated(st: Store, query: Option<string>, searchType: Option<string>, page: int, limit: int,
                        re: Option<string -> bool>)
    requires Gather(st, query, searchType, page, limit, re).Ok?
    requires ParseMode(searchType) == Some(Federated)
    ensures (page - 1) * limit >= 0
    ensures var g := Gather(st, query, searchType, page, limit, re).value;
            var skip := (page - 1) * limit;
            && g.total == FederatedTotal(st, re.value)
            && g.results == Concat4(Page(Matching(st.users, Username, re.value), skip, limit),
                                    Page(Matching(st.tracks, Title, re.value), skip, limit),
                                    Page(Matching(st.artists, Name, re.value), skip, limit),
                                    Page(Matching(st.playlists, Name, re.value), skip, limit))
  {
  }

  /**
   * Single-kind mode: every record is tagged with the requested kind, the list is that
   * collection's page, and the total is that collection's match count.
   */
  lemma SingleLayout(st: Store, query: Option<string>, searchType: Option<string>, page: int, limit: int,
                     re: Option<string -> bool>, k: Kind)
    requires Gather(st, query, searchType, page, limit, re).Ok?
    requires ParseMode(searchType) == Some(Single(k))
    ensures var g := Gather(st, query, searchType, page, limit, re).value;
            && (page - 1) * limit >= 0
            && g.results == Fetch(st, k, re.value, (page - 1) * limit, limit)
            && (forall i :: 0 <= i < |g.results| ==> g.results[i].kind == k)
            && |g.results| <= Count(st, k, re.value)
            && (limit != 0 ==> |g.results| <= Abs(limit))
            && g.total == Count(st, k, re.value)
  {
  }

  /** The total depends on the store and the query only, never on the page or the limit. */
  lemma TotalIndependentOfPaging(st: Store, query: Option<string>, searchType: Option<string>,
                                 page1: int, limit1: int, page2: int, limit2: int, re: Option<string -> bool>)
    requires Gather(st, query, searchType, page1, limit1, re).Ok?
    requires Gather(st, query, searchType, page2, limit2, re).Ok?
    ensures Gather(st, query, searchType, page1, limit1, re).value.total
         == Gather(st, query, searchType, page2, limit2, re).value.total
  {
  }

  /**
   * The handler: defaults page to 1 and limit to 10, assembles the list, sorts it with the
   * comparator, and reports the total and the page count.
   */
  method Search(st: Store, query: Option<string>, searchType: Option<string>, page: Option<int>, limit: Option<int>,
                re: Option<string -> bool>, key: string -> real)
    returns (r: Outcome<Response>, ghost perm: seq<nat>)
    ensures var p, l := page.GetOr(DefaultPage), limit.GetOr(DefaultLimit);
            var g := Gather(st, query, searchType, p, l, re);
            && (g.Fail? ==> r == Fail(g.status, g.message))
            && (g.Ok? ==> && r.Ok?
                          && multiset(r.value.results) == multiset(g.value.results)
                          && Permutes(g.value.results, r.value.results, perm)
                          && Ranked(r.value.results, query.value, key)
                          && StableFrom(r.value.results, perm, query.value, key)
                          && r.value.total == g.value.total
                          && r.value.page == p && r.value.limit == l
                          && r.value.totalPages == TotalPages(g.value.total, l))
  {
    var p := if page.Some? then page.value else DefaultPage;
    var l := if limit.Some? then limit.value else DefaultLimit;
    var g := Gather(st, query, searchType, p, l, re);
    if g.Fail? {
      return Fail(g.status, g.message), [];
    }
    var gathered := g.value.results;
    var results := new Tagged[|gathered|](i requires 0 <= i < |gathered| => gathered[i]);
    assert results[..] == gathered;
    perm := SortResults(results, query.value, key);
    r := Ok(Response(results[..], g.value.total, p, l, TotalPages(g.value.total, l)));
  }
}

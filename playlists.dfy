/**
 * Playlist documents and the owner-scoped update and delete of the playlist controller.
 * The playlist collection is a map from id to document; a request names a playlist id
 * and the authenticated user, and only a playlist with that id owned by that user is
 * touched.
 */
module Playlists {
  import opened Common

  datatype Playlist = Playlist(id: Id, name: string, user: Id, tracks: seq<Id>, isPublic: bool,
                               description: string)

  const NotFound := "Playlist not found"

  // ---------------------------------------------------------------- the `trim` setter of `name`

  /** The characters String.prototype.trim removes: white space and line terminators. */
  predicate JsWhitespace(c: char) {
    || c == '\t' || c == '\n' || c == '\U{000B}' || c == '\U{000C}' || c == '\r' || c == ' '
    || c == '\U{00A0}' || c == '\U{1680}' || ('\U{2000}' <= c <= '\U{200A}')
    || c == '\U{2028}' || c == '\U{2029}' || c == '\U{202F}' || c == '\U{205F}' || c == '\U{3000}'
    || c == '\U{FEFF}'
  }

  predicate AllSpace(s: string) {
    forall k :: 0 <= k < |s| ==> JsWhitespace(s[k])
  }

  /** Neither end of `s` is white space. */
  predicate Trimmed(s: string) {
    s == [] || (!JsWhitespace(s[0]) && !JsWhitespace(s[|s| - 1]))
  }

  function TrimStart(s: string): (r: string)
    ensures |r| <= |s| && r == s[|s| - |r|..]
    ensures r != [] ==> !JsWhitespace(r[0])
  {
    if s != [] && JsWhitespace(s[0]) then TrimStart(s[1..]) else s
  }

  function TrimEnd(s: string): (r: string)
    ensures |r| <= |s| && r == s[..|r|]
    ensures r != [] ==> !JsWhitespace(r[|r| - 1])
  {
    if s != [] && JsWhitespace(s[|s| - 1]) then TrimEnd(s[..|s| - 1]) else s
  }

  /** `s.trim()`, which the schema's `trim: true` applies to every name it is given. */
  function Trim(s: string): (r: string)
    ensures Trimmed(r) && |r| <= |s|
  {
    TrimEnd(TrimStart(s))
  }

  lemma {:induction false} TrimStartOfPadded(w: string, t: string)
    requires AllSpace(w) && (t == [] || !JsWhitespace(t[0]))
    ensures TrimStart(w + t) == t
  {
    if w == [] {
      assert w + t == t;
    } else {
      assert (w + t)[1..] == w[1..] + t;
      TrimStartOfPadded(w[1..], t);
    }
  }

  lemma {:induction false} TrimEndOfPadded(t: string, w: string)
    requires AllSpace(w) && (t == [] || !JsWhitespace(t[|t| - 1]))
    ensures TrimEnd(t + w) == t
  {
    if w == [] {
      assert t + w == t;
    } else {
      assert (t + w)[..|t + w| - 1] == t + w[..|w| - 1];
      TrimEndOfPadded(t, w[..|w| - 1]);
    }
  }

  /**
   * Trimming removes exactly the white space around the text: a text with no white space at
   * either end, padded on both sides with white space, trims back to itself.
   */
  lemma TrimOfPadded(w1: string, core: string, w2: string)
    requires AllSpace(w1) && AllSpace(w2) && Trimmed(core)
    ensures Trim(w1 + core + w2) == core
  {
    if core == [] {
      assert w1 + core + w2 == w1 + w2;
      TrimStartOfPadded(w1 + w2, []);
      assert w1 + w2 + [] == w1 + w2;
      assert TrimEnd([]) == [];
    } else {
      assert w1 + core + w2 == w1 + (core + w2);
      TrimStartOfPadded(w1, core + w2);
      TrimEndOfPadded(core, w2);
    }
  }

  /** Trimming twice is trimming once. */
  lemma TrimIdempotent(s: string)
    ensures Trim(Trim(s)) == Trim(s)
  {
    var t := Trim(s);
    assert [] + t + [] == t;
    TrimOfPadded([], t, []);
  }

  /** The filter `{ _id: id, user: owner }` matches a document. */
  predicate OwnedBy(store: map<Id, Playlist>, id: Id, owner: Id)
  {
    id in store && store[id].user == owner
  }

  /** Every document is stored under its own id. */
  predicate KeyedById(store: map<Id, Playlist>)
  {
    forall k :: k in store ==> store[k].id == k
  }

  /** The collection after `{ $set: { tracks } }` on the document matching id and owner, if any. */
  function SetTracks(store: map<Id, Playlist>, id: Id, owner: Id, tracks: seq<Id>): (r: map<Id, Playlist>)
    ensures r.Keys == store.Keys
    ensures forall k :: k in store && k != id ==> r[k] == store[k]
    ensures OwnedBy(store, id, owner) ==> r[id].tracks == tracks && r[id] == store[id].(tracks := tracks)
    ensures !OwnedBy(store, id, owner) ==> r == store
  {
    if OwnedBy(store, id, owner) then store[id := store[id].(tracks := tracks)] else store
  }

  /** The collection after `findOneAndDelete` with the filter on id and owner. */
  function RemoveOwned(store: map<Id, Playlist>, id: Id, owner: Id): (r: map<Id, Playlist>)
    ensures OwnedBy(store, id, owner) ==> r.Keys == store.Keys - {id}
    ensures !OwnedBy(store, id, owner) ==> r == store
    ensures forall k :: k in r ==> k in store && r[k] == store[k]
  {
    if OwnedBy(store, id, owner) then store - {id} else store
  }

  /** No request by one user changes, adds or removes a playlist owned by someone else. */
  lemma OtherOwnersUntouched(store: map<Id, Playlist>, id: Id, owner: Id, tracks: seq<Id>)
    ensures forall k :: k in store && store[k].user != owner ==>
              k in SetTracks(store, id, owner, tracks) && SetTracks(store, id, owner, tracks)[k] == store[k]
              && k in RemoveOwned(store, id, owner) && RemoveOwned(store, id, owner)[k] == store[k]
  {
  }

  /** Both operations keep every document stored under its own id. */
  lemma OperationsKeepKeys(store: map<Id, Playlist>, id: Id, owner: Id, tracks: seq<Id>)
    requires KeyedById(store)
    ensures KeyedById(SetTracks(store, id, owner, tracks))
    ensures KeyedById(RemoveOwned(store, id, owner))
  {
  }

  /** Setting the same track list twice is the same as setting it once; deleting twice the same as once. */
  lemma OperationsIdempotent(store: map<Id, Playlist>, id: Id, owner: Id, tracks: seq<Id>)
    ensures SetTracks(SetTracks(store, id, owner, tracks), id, owner, tracks) == SetTracks(store, id, owner, tracks)
    ensures RemoveOwned(RemoveOwned(store, id, owner), id, owner) == RemoveOwned(store, id, owner)
  {
  }

  /** After a delete the playlist can no longer be updated by its owner: the update answers 404. */
  lemma DeletedPlaylistNotFound(store: map<Id, Playlist>, id: Id, owner: Id)
    ensures !OwnedBy(RemoveOwned(store, id, owner), id, owner)
  {
  }

  /** The playlist collection the two handlers work on. */
  class PlaylistCollection {
    var playlists: map<Id, Playlist>

    constructor (initial: map<Id, Playlist>)
      ensures playlists == initial
    {
      playlists := initial;
    }

    /**
     * `findOneAndUpdate` with `{ new: true }`: the updated document when id and owner match,
     * otherwise 404 "Playlist not found" and no change.
     */
    method UpdatePlaylist(id: Id, owner: Id, tracks: seq<Id>) returns (r: Outcome<Playlist>)
      modifies this
      ensures playlists == SetTracks(old(playlists), id, owner, tracks)
      ensures old(OwnedBy(playlists, id, owner)) ==> r == Ok(playlists[id])
      ensures !old(OwnedBy(playlists, id, owner)) ==> r == Fail(404, NotFound)
    {
      if id in playlists && playlists[id].user == owner {
        var updated := playlists[id].(tracks := tracks);
        playlists := playlists[id := updated];
        r := Ok(updated);
      } else {
        r := Fail(404, NotFound);
      }
    }

    /**
     * `findOneAndDelete`: when id and owner match, the document is removed and the answer is
     * 200 with an empty body (the removed document is only tested for presence); otherwise
     * 404 and no change.
     */
    method DeletePlaylist(id: Id, owner: Id) returns (r: Outcome<()>)
      modifies this
      ensures playlists == RemoveOwned(old(playlists), id, owner)
      ensures old(OwnedBy(playlists, id, owner)) ==> r == Ok(())
      ensures !old(OwnedBy(playlists, id, owner)) ==> r == Fail(404, NotFound)
    {
      if id in playlists && playlists[id].user == owner {
        r := Ok(());
        playlists := playlists - {id};
      } else {
        r := Fail(404, NotFound);
      }
    }
  }
}

/**
 * The instance methods of a user document that edit its lists in place: favourites per
 * kind, the capped recently-played queue, the username with its format rule and cooldown,
 * preferences, and the list of owned playlists. Clock readings and freshly generated
 * ids are parameters.
 */
module UserProfile {
  import opened Common
  import Playlists

  /** How a user method ends: normally, or by throwing an Error with a message. */
  datatype Completion = Done | Threw(message: string)

  // ---------------------------------------------------------------- favourites

  datatype FavoriteKind = Station | TrackFavorite | AlbumFavorite

  const InvalidFavoriteType := "Invalid favorite type"

  /** The accepted `type` arguments "Station", "Track" and "Album"; anything else is rejected. */
  function ParseFavoriteType(t: string): (r: Option<FavoriteKind>)
    ensures r == Some(Station) <==> t == "Station"
    ensures r == Some(TrackFavorite) <==> t == "Track"
    ensures r == Some(AlbumFavorite) <==> t == "Album"
  {
    if t == "Station" then Some(Station)
    else if t == "Track" then Some(TrackFavorite)
    else if t == "Album" then Some(AlbumFavorite)
    else None
  }

  predicate NoDuplicates(s: seq<Id>)
  {
    forall i, j :: 0 <= i < j < |s| ==> s[i] != s[j]
  }

  /** The list after adding `x` when it is not already there. */
  function WithFavorite(s: seq<Id>, x: Id): (r: seq<Id>)
    ensures x in r
    ensures x in s ==> r == s
    ensures forall y :: y in r <==> y in s || y == x
    ensures s <= r && |r| <= |s| + 1
    ensures NoDuplicates(s) ==> NoDuplicates(r)
  {
    if x in s then s else s + [x]
  }

  /** The list with every occurrence of `x` removed, the other ids in their order. */
  function WithoutFavorite(s: seq<Id>, x: Id): (r: seq<Id>)
    ensures forall y :: y in r <==> y in s && y != x
    ensures |r| <= |s|
  {
    if s == [] then []
    else if s[0] == x then WithoutFavorite(s[1..], x)
    else [s[0]] + WithoutFavorite(s[1..], x)
  }

  /** Adding an id already present changes nothing, so adding twice is adding once. */
  lemma AddFavoriteIdempotent(s: seq<Id>, x: Id)
    ensures WithFavorite(WithFavorite(s, x), x) == WithFavorite(s, x)
  {
  }

  /** Removal filters element by element, so it keeps order: it distributes over concatenation. */
  lemma {:induction false} RemoveFavoriteDistributes(s: seq<Id>, t: seq<Id>, x: Id)
    ensures WithoutFavorite(s + t, x) == WithoutFavorite(s, x) + WithoutFavorite(t, x)
  {
    if s == [] {
      assert s + t == t;
    } else {
      assert (s + t)[1..] == s[1..] + t;
      RemoveFavoriteDistributes(s[1..], t, x);
    }
  }

  /** Removal drops all copies of `x` and keeps every other id as often as it occurred. */
  lemma {:induction false} RemoveFavoriteCounts(s: seq<Id>, x: Id)
    ensures multiset(WithoutFavorite(s, x)) == multiset(s)[x := 0]
  {
    if s != [] {
      RemoveFavoriteCounts(s[1..], x);
      assert s == [s[0]] + s[1..];
    }
  }

  /** Removing an id just added to a list that lacked it gives back the list. */
  lemma {:induction false} RemoveUndoesAdd(s: seq<Id>, x: Id)
    requires x !in s
    ensures WithoutFavorite(WithFavorite(s, x), x) == s
  {
    RemoveFavoriteDistributes(s, [x], x);
    AbsentNotRemoved(s, x);
    assert [x][1..] == [];
  }

  lemma {:induction false} AbsentNotRemoved(s: seq<Id>, x: Id)
    requires x !in s
    ensures WithoutFavorite(s, x) == s
  {
    if s != [] {
      AbsentNotRemoved(s[1..], x);
    }
  }

  // ---------------------------------------------------------------- recently played

  const RecentLimit: nat := 50

  /** One entry of `recentlyPlayed`; `playedAt` takes the clock reading when the entry is made. */
  datatype Played = Played(item: Id, itemType: string, playedAt: int)

  /** `unshift` the entry, then `pop` the oldest when the queue has grown past fifty. */
  function PushRecent(s: seq<Played>, e: Played): (r: seq<Played>)
    ensures |r| > 0 && r[0] == e
    ensures r[1..] <= s
    ensures |r| == if |s| < RecentLimit then |s| + 1 else |s|
  {
    var pushed := [e] + s;
    if |pushed| > RecentLimit then pushed[..|pushed| - 1] else pushed
  }

  /** A queue of at most fifty stays at most fifty, and keeps its newest entries. */
  lemma RecentStaysBounded(s: seq<Played>, e: Played)
    requires |s| <= RecentLimit
    ensures |PushRecent(s, e)| <= RecentLimit
    ensures |PushRecent(s, e)| == if |s| < RecentLimit then |s| + 1 else RecentLimit
    ensures PushRecent(s, e) == [e] + s[..|PushRecent(s, e)| - 1]
  {
  }

  /** Two plays in a row: the later one first, the earlier one second. */
  lemma NewestFirst(s: seq<Played>, e1: Played, e2: Played)
    ensures var r := PushRecent(PushRecent(s, e1), e2);
            |r| >= 2 && r[0] == e2 && r[1] == e1
  {
  }

  // ---------------------------------------------------------------- username

  const InvalidUsername := "Username can only contain letters, numbers, and underscores."
  const TooSoon := "Username can only be changed once every 30 days."

  /** Thirty days in milliseconds. */
  const UsernameCooldown: int := 30 * 24 * 60 * 60 * 1000

  predicate UsernameChar(c: char)
  {
    ('a' <= c <= 'z') || ('0' <= c <= '9') || c == '_'
  }

  /** The pattern `^[a-z0-9_]+$`. */
  predicate ValidUsername(s: string)
  {
    |s| > 0 && forall i :: 0 <= i < |s| ==> UsernameChar(s[i])
  }

  /** Why a change to `name` at instant `now` is refused, if it is: the format is checked before the cooldown. */
  function UsernameRefusal(name: string, lastChange: int, now: int): (r: Option<string>)
    ensures r.None? <==> ValidUsername(name) && now - lastChange >= UsernameCooldown
    ensures !ValidUsername(name) ==> r == Some(InvalidUsername)
    ensures ValidUsername(name) && now - lastChange < UsernameCooldown ==> r == Some(TooSoon)
  {
    if !ValidUsername(name) then Some(InvalidUsername)
    else if now - lastChange < UsernameCooldown then Some(TooSoon)
    else None
  }

  /** An accepted username is non-empty and has no upper-case letter. */
  lemma ValidUsernameIsLowercase(s: string)
    requires ValidUsername(s)
    ensures |s| > 0 && forall i :: 0 <= i < |s| ==> !('A' <= s[i] <= 'Z')
  {
  }

  /** The cooldown is 2,592,000,000 ms, exactly thirty days elapsed is enough, and a millisecond less is not. */
  lemma CooldownBoundary(name: string, lastChange: int)
    requires ValidUsername(name)
    ensures UsernameCooldown == 2592000000
    ensures UsernameRefusal(name, lastChange, lastChange + UsernameCooldown) == None
    ensures UsernameRefusal(name, lastChange, lastChange + UsernameCooldown - 1) == Some(TooSoon)
  {
  }

  /** After a change at `now`, any further change earlier than thirty days later is refused. */
  lemma NoSecondChangeWithinCooldown(first: string, second: string, lastChange: int, now: int, later: int)
    requires UsernameRefusal(first, lastChange, now) == None
    requires later < now + UsernameCooldown
    ensures UsernameRefusal(second, now, later).Some?
  {
  }

  // ---------------------------------------------------------------- preferences

  /** A preference value: the schema declares `genres` as a list and `language` as a string. */
  datatype Preference = Text(text: string) | Texts(texts: seq<string>)

  /** `{ ...old, ...update }`: every key of `update` wins, keys it lacks keep their old value. */
  function MergePreferences(prefs: map<string, Preference>, update: map<string, Preference>): (r: map<string, Preference>)
    ensures r.Keys == prefs.Keys + update.Keys
    ensures forall k :: k in update ==> r[k] == update[k]
    ensures forall k :: k in prefs && k !in update ==> r[k] == prefs[k]
  {
    prefs + update
  }

  /** Merging the same update twice is merging it once; merging nothing changes nothing. */
  lemma MergeIdempotent(prefs: map<string, Preference>, update: map<string, Preference>)
    ensures MergePreferences(MergePreferences(prefs, update), update) == MergePreferences(prefs, update)
    ensures MergePreferences(prefs, map[]) == prefs
  {
  }

  // ---------------------------------------------------------------- the document

  class User {
    const id: Id
    var username: string
    var lastUsernameChange: int
    var favoriteStations: seq<Id>
    var favoriteTracks: seq<Id>
    var favoriteAlbums: seq<Id>
    var playlists: seq<Id>
    var recentlyPlayed: seq<Played>
    var preferences: map<string, Preference>

    /** A fresh user; `lastUsernameChange` defaults to the creation instant. */
    constructor (id: Id, username: string, now: int)
      ensures this.id == id && this.username == username && lastUsernameChange == now
      ensures favoriteStations == [] && favoriteTracks == [] && favoriteAlbums == []
      ensures playlists == [] && recentlyPlayed == [] && preferences == map[]
    {
      this.id := id;
      this.username := username;
      lastUsernameChange := now;
      favoriteStations, favoriteTracks, favoriteAlbums := [], [], [];
      playlists, recentlyPlayed, preferences := [], [], map[];
    }

    /** The field `favorite<Type>s` for a kind. */
    function Favorites(k: FavoriteKind): seq<Id>
      reads this
    {
      match k
      case Station => favoriteStations
      case TrackFavorite => favoriteTracks
      case AlbumFavorite => favoriteAlbums
    }

    method AddFavorite(itemId: Id, favoriteType: string) returns (c: Completion)
      modifies this`favoriteStations, this`favoriteTracks, this`favoriteAlbums
      ensures ParseFavoriteType(favoriteType).None? ==>
                c == Threw(InvalidFavoriteType) && unchanged(this)
      ensures ParseFavoriteType(favoriteType).Some? ==> c == Done
      ensures forall k :: Favorites(k) == if ParseFavoriteType(favoriteType) == Some(k)
                                           then WithFavorite(old(Favorites(k)), itemId)
                                           else old(Favorites(k))
    {
      var kind := ParseFavoriteType(favoriteType);
      if kind.None? {
        return Threw(InvalidFavoriteType);
      }
      match kind.value {
        case Station =>
          if itemId !in favoriteStations {
            favoriteStations := favoriteStations + [itemId];
          }
        case TrackFavorite =>
          if itemId !in favoriteTracks {
            favoriteTracks := favoriteTracks + [itemId];
          }
        case AlbumFavorite =>
          if itemId !in favoriteAlbums {
            favoriteAlbums := favoriteAlbums + [itemId];
          }
      }
      c := Done;
    }

    method RemoveFavorite(itemId: Id, favoriteType: string) returns (c: Completion)
      modifies this`favoriteStations, this`favoriteTracks, this`favoriteAlbums
      ensures ParseFavoriteType(favoriteType).None? ==>
                c == Threw(InvalidFavoriteType) && unchanged(this)
      ensures ParseFavoriteType(favoriteType).Some? ==> c == Done
      ensures forall k :: Favorites(k) == if ParseFavoriteType(favoriteType) == Some(k)
                                           then WithoutFavorite(old(Favorites(k)), itemId)
                                           else old(Favorites(k))
    {
      var kind := ParseFavoriteType(favoriteType);
      if kind.None? {
        return Threw(InvalidFavoriteType);
      }
      match kind.value {
        case Station => favoriteStations := WithoutFavorite(favoriteStations, itemId);
        case TrackFavorite => favoriteTracks := WithoutFavorite(favoriteTracks, itemId);
        case AlbumFavorite => favoriteAlbums := WithoutFavorite(favoriteAlbums, itemId);
      }
      c := Done;
    }

    method AddFavoriteStation(stationId: Id)
      modifies this`favoriteStations, this`favoriteTracks, this`favoriteAlbums
      ensures favoriteStations == WithFavorite(old(favoriteStations), stationId)
      ensures favoriteTracks == old(favoriteTracks) && favoriteAlbums == old(favoriteAlbums)
    {
      var c := AddFavorite(stationId, "Station");
      assert Favorites(Station) == favoriteStations;
      assert Favorites(TrackFavorite) == favoriteTracks;
      assert Favorites(AlbumFavorite) == favoriteAlbums;
    }

    method RemoveFavoriteStation(stationId: Id)
      modifies this`favoriteStations, this`favoriteTracks, this`favoriteAlbums
      ensures favoriteStations == WithoutFavorite(old(favoriteStations), stationId)
      ensures favoriteTracks == old(favoriteTracks) && favoriteAlbums == old(favoriteAlbums)
    {
      var c := RemoveFavorite(stationId, "Station");
      assert Favorites(Station) == favoriteStations;
      assert Favorites(TrackFavorite) == favoriteTracks;
      assert Favorites(AlbumFavorite) == favoriteAlbums;
    }

    method AddRecentlyPlayed(itemId: Id, itemType: string, now: int)
      modifies this`recentlyPlayed
      ensures recentlyPlayed == PushRecent(old(recentlyPlayed), Played(itemId, itemType, now))
    {
      recentlyPlayed := [Played(itemId, itemType, now)] + recentlyPlayed;
      if |recentlyPlayed| > RecentLimit {
        recentlyPlayed := recentlyPlayed[..|recentlyPlayed| - 1];
      }
    }

    method AddRecentlyPlayedStation(stationId: Id, now: int)
      modifies this`recentlyPlayed
      ensures recentlyPlayed == PushRecent(old(recentlyPlayed), Played(stationId, "RadioStation", now))
    {
      AddRecentlyPlayed(stationId, "RadioStation", now);
    }

    /**
     * A new playlist owned by this user with no tracks; the name passes through the schema's
     * `trim` setter, an absent description becomes "" and an absent visibility private. Its
     * id, generated by the document layer, is `newId`.
     */
    method CreatePlaylist(newId: Id, name: string, description: Option<string>, isPublic: Option<bool>)
      returns (p: Playlists.Playlist)
      modifies this`playlists
      ensures p == Playlists.Playlist(newId, Playlists.Trim(name), id, [], isPublic.GetOr(false), description.GetOr(""))
      ensures playlists == old(playlists) + [p.id]
    {
      p := Playlists.Playlist(newId, Playlists.Trim(name), id, [], isPublic.GetOr(false), description.GetOr(""));
      playlists := playlists + [p.id];
    }

    method UpdatePreferences(update: map<string, Preference>)
      modifies this`preferences
      ensures preferences == MergePreferences(old(preferences), update)
    {
      preferences := preferences + update;
    }

    /** Refused changes throw and leave the document as it was; `now` is the clock reading. */
    method ChangeUsername(newUsername: string, now: int) returns (c: Completion)
      modifies this`username, this`lastUsernameChange
      ensures UsernameRefusal(newUsername, old(lastUsernameChange), now).Some? ==>
                c == Threw(UsernameRefusal(newUsername, old(lastUsernameChange), now).value) && unchanged(this)
      ensures UsernameRefusal(newUsername, old(lastUsernameChange), now).None? ==>
                c == Done && username == newUsername && lastUsernameChange == now
    {
      if !ValidUsername(newUsername) {
        return Threw(InvalidUsername);
      }
      if now - lastUsernameChange < UsernameCooldown {
        return Threw(TooSoon);
      }
      username := newUsername;
      lastUsernameChange := now;
      c := Done;
    }
  }
}

# dTunes backend core in Dafny

This project models the core of the dTunes music backend, an Express and Mongoose
service, and proves properties of it. The modelled parts are:

- the **federated search** handler: query and type validation, the per-collection find
  and count, tagging and concatenation, the page count, and the ranking comparator with
  the sort it drives;
- the **top picks** aggregation: albums joined with their tracks, summed plays, a
  release-recency filter, a sort on plays limited to ten, the first artist's name, and a
  random-sample fallback;
- the **owner-scoped playlist update and delete**;
- the **user document methods** that edit favourites, the recently-played queue, the
  username, the preferences and the list of owned playlists;
- the **share links** for tracks, including `encodeURIComponent`, and the share counter.

Files:

| file | module | contents |
|---|---|---|
| `common.dfy` | `Common` | `Option`, `Outcome` (a value or an HTTP status with a message), `Id` |
| `search_ranking.dfy` | `SearchRanking` | the comparator, what "ranked" means, the in-place sort over an `array` |
| `search.dfy` | `Search` | validation, paging, the assembled list and total, the handler method |
| `top_picks.dfy` | `TopPicks` | the aggregation pipeline as functions over sequences, with `$avg` as MongoDB evaluates it |
| `playlists.dfy` | `Playlists` | the playlist document, update/delete as functions, and a class over a map |
| `user_profile.dfy` | `UserProfile` | the `User` class with `seq` and `map` fields and its methods |
| `uri_component.dfy` | `UriComponent` | `encodeURIComponent` and `decodeURIComponent` over Unicode scalar values, with the round trip |
| `share.dfy` | `Share` | `generateShareUrl`, the three share handlers, and the track's counter |

The database is a set of in-memory sequences and maps. A `find` is a filter of a sequence
in stored order, and `skip`/`limit` is a slice. The clock, the random sample, the freshly
generated ids, the compiled regular expression and the collation are parameters.

## Model

| member | source | states |
|---|---|---|
| Search.ParseMode | src/controllers/search.controller.js:23 | absent, empty or "all" selects federated mode; the four kind names select one collection; any other value is rejected |
| Search.DisplayIsSearchField | src/controllers/search.controller.js:91 | for a record shaped by its schema, the field the comparator reads is the field the search matched |
| Search.Matching | src/controllers/search.controller.js:25 | a record is found exactly when it is in the collection, has the search field, and the pattern matches it |
| Search.MatchingCounts | src/controllers/search.controller.js:25 | every matching record is found as often as it is stored and no other record is found, so the count is the number of matching documents |
| Search.MatchingAppend | src/controllers/search.controller.js:25 | the filter keeps stored order: matching a concatenation matches each part in turn |
| Search.Page | src/controllers/search.controller.js:25-34 | skip comes first, then at most abs(limit) records in stored order; 0 means no limit |
| Search.Gather | src/controllers/search.controller.js:11-87 | a success implies a non-empty query, a pattern that compiled and a known type; every failure is 400 or 500 |
| Search.MissingQueryRejected | src/controllers/search.controller.js:14-16 | a missing or empty query gives 400 "Search query is required", whatever the store holds |
| Search.InvalidTypeRejected | src/controllers/search.controller.js:73-74 | an unknown type gives 400 "Invalid search type", whatever the store holds |
| Search.FederatedLayout | src/controllers/search.controller.js:24-51 | users, then tracks, artists and playlists; each kind gives exactly its own page of at most abs(limit) records after skipping (page-1)*limit; the total is the sum of the four counts |
| Search.GatherFederated | src/controllers/search.controller.js:37-51 | the federated list is the concatenation of the four tagged pages, and the total is the sum of the four counts |
| Search.Concat4Ordered | src/controllers/search.controller.js:37-45 | in the concatenation no record of a later kind comes before one of an earlier kind |
| Search.Concat4OfKind | src/controllers/search.controller.js:37-45 | picking one kind out of the concatenation gives back that kind's tagged page |
| Search.OfKindAppend | src/controllers/search.controller.js:37-45 | picking one kind distributes over concatenation |
| Search.OfKindTag | src/controllers/search.controller.js:38-44 | a page tagged with one kind holds only that kind |
| Search.Tag | src/controllers/search.controller.js:84 | every record keeps its position and gets the requested kind |
| Search.SingleLayout | src/controllers/search.controller.js:56-86 | single mode returns exactly the requested collection's page, found on that kind's search field after skipping (page-1)*limit, every record tagged with the kind, at most abs(limit) of them, and totals that collection's count |
| Search.TotalIndependentOfPaging | src/controllers/search.controller.js:47-51 | the total does not depend on the page or the limit |
| Search.TotalPages | src/controllers/search.controller.js:104 | the page count is absent exactly when the limit is 0 |
| Search.TotalPagesIsCeiling | src/controllers/search.controller.js:104 | for a positive limit, totalPages*limit >= total and (totalPages-1)*limit < total; 0 pages for 0 results; the matching bounds for a negative limit |
| Search.Search | src/controllers/search.controller.js:9-110 | a failure of the checks is answered as it is; otherwise the results are a permutation of the assembled list in ranked order, with records the comparator finds equal in their assembled order, and the total, page, limit and page count |
| SearchRanking.CompareTransitive | src/controllers/search.controller.js:90-96 | "compares no later than" is transitive |
| SearchRanking.CompareFlip | src/controllers/search.controller.js:93-95 | when the comparator asks for a swap, the swapped pair is in order |
| SearchRanking.CompareAsymmetric | src/controllers/search.controller.js:93-95 | unless both records match exactly, "strictly before" is asymmetric |
| SearchRanking.RankedShape | src/controllers/search.controller.js:93-95 | in a ranked list exact matches come before all other records, and the others follow in collation order |
| SearchRanking.ExactMatchFirst | src/controllers/search.controller.js:93 | with exactly one exact match, a ranked list starts with it |
| SearchRanking.RankedIffEcmaSorted | src/controllers/search.controller.js:90-96 | without exact matches the comparator is consistent, and a permutation is ranked and stable exactly when it is the result ECMA-262 prescribes for the sort (order, including no record before itself, and stability) |
| SearchRanking.CompareZeroSymmetric | src/controllers/search.controller.js:93-95 | the comparator finds two records equal in either order or in neither |
| SearchRanking.TwoExactMatchesInconsistent | src/controllers/search.controller.js:93-94 | two exact matches each compare before the other, and an exact match compares before itself |
| SearchRanking.NoEcmaOrderWithExact | src/controllers/search.controller.js:90-96 | with one exact match among the records no permutation is the result ECMA-262 prescribes for a consistent comparator, since the exact match compares before itself |
| SearchRanking.AdjacentToRanked | src/controllers/search.controller.js:90 | a list whose neighbours are in order is ranked |
| SearchRanking.SortResults | src/controllers/search.controller.js:90-96 | the array is sorted in place into a ranked permutation of its contents, and records the comparator finds equal keep their original relative order (stable) |
| TopPicks.Lookup | src/controllers/playlist.controller.js:102-107 | the joined tracks are exactly the track documents whose id the album lists |
| TopPicks.LookupOnlyReadsReferencedIds | src/controllers/playlist.controller.js:102-107 | the join depends only on which ids the album lists, not on their order or repetition |
| TopPicks.SumOfPermutation | src/controllers/playlist.controller.js:111 | a sum over the joined tracks does not depend on their order |
| TopPicks.TotalPlaysIsSumOverReferencedTracks | src/controllers/playlist.controller.js:101-111 | an album's totalPlays is the sum of plays over exactly the tracks it references, in any order |
| TopPicks.EligibleIffAverageAtLeastCutoff | src/controllers/playlist.controller.js:112-119 | the division-free test sum >= cutoff*count agrees with the average release instant being on or after the cutoff |
| TopPicks.MatchIffEligible | src/controllers/playlist.controller.js:112-119 | an album passes the match stage exactly when its tracks' average release instant is on or after the cutoff |
| TopPicks.MatchRecent | src/controllers/playlist.controller.js:115-119 | a candidate is kept exactly when its average release date is a Date on or after the cutoff |
| TopPicks.SortByPlays | src/controllers/playlist.controller.js:120-122 | the output is a permutation of the input with plays non-increasing |
| TopPicks.Take | src/controllers/playlist.controller.js:123-125 | the first ten entries, or all when there are fewer |
| TopPicks.RankingOnlyEligible | src/controllers/playlist.controller.js:97-125 | every ranked album is from the collection, annotated from the track collection, and recent |
| TopPicks.RankingSortedAndBounded | src/controllers/playlist.controller.js:120-125 | the ranking is ordered by plays, highest first, with at most ten entries |
| TopPicks.TakeKeepsTheMostPlayed | src/controllers/playlist.controller.js:120-125 | a limited sorted list keeps everything or nothing more played than its last entry is left out |
| TopPicks.RankingKeepsTheMostPlayed | src/controllers/playlist.controller.js:115-125 | with fewer than ten entries every recent album is ranked; no recent album left out has more plays than the last kept |
| TopPicks.ArtistName | src/controllers/playlist.controller.js:126-138 | the name of the first artist document with the album's artist id, or none when there is no such document |
| TopPicks.ProjectAll | src/controllers/playlist.controller.js:134-143 | one record per album, each with id, title, artist name, cover, release date and genres only |
| TopPicks.AtMostTenPicks | src/controllers/playlist.controller.js:123-148 | both paths return at most ten records |
| TopPicks.AnswerNotEmpty | src/controllers/playlist.controller.js:146-148 | a catalogue with at least one album never gets an empty answer: the ranking or the sample of min(10, albums) fills it |
| TopPicks.RankingEmptyIffNoneEligible | src/controllers/playlist.controller.js:115-146 | the ranking is empty exactly when no album of the collection is recent |
| TopPicks.FallbackIffNothingRanked | src/controllers/playlist.controller.js:146-168 | an empty ranking gives the projected sample; otherwise the projected ranking, whatever the sample |
| TopPicks.PicksComeFromTheCollection | src/controllers/playlist.controller.js:126-167 | every returned record is the projection of an album of the collection |
| TopPicks.AsWrittenAverageIsNull | src/controllers/playlist.controller.js:112 | as written, the average release date is null for every album |
| TopPicks.AsWrittenAlwaysFallsBack | src/controllers/playlist.controller.js:112-168 | as written, the ranking is always empty and the response is always the projected sample |
| TopPicks.AsWrittenAnswerSize | src/controllers/playlist.controller.js:112-168 | as written, the response always holds ten records, or every album when the catalogue has fewer |
| TopPicks.RecentAlbumIsEligible | src/controllers/playlist.controller.js:112-119 | an album whose dated tracks are all recent passes the intended test and fails the test as written |
| TopPicks.NothingRecentMatched | src/controllers/playlist.controller.js:115-119 | when no candidate has a recent average date, the match stage keeps nothing |
| Playlists.SetTracks | src/controllers/playlist.controller.js:29-33 | only the playlist with that id and owner gets the new track list; otherwise the collection is unchanged |
| Playlists.RemoveOwned | src/controllers/playlist.controller.js:53-56 | only the playlist with that id and owner is removed; otherwise the collection is unchanged |
| Playlists.OtherOwnersUntouched | src/controllers/playlist.controller.js:29-56 | no request changes or removes a playlist owned by another user |
| Playlists.OperationsKeepKeys | src/controllers/playlist.controller.js:29-56 | every playlist stays stored under its own id |
| Playlists.OperationsIdempotent | src/controllers/playlist.controller.js:29-56 | repeating an update or a delete changes nothing more |
| Playlists.DeletedPlaylistNotFound | src/controllers/playlist.controller.js:53-62 | after a delete the owner no longer matches that id |
| Playlists.PlaylistCollection.UpdatePlaylist | src/controllers/playlist.controller.js:29-42 | the collection becomes SetTracks of the old one; the answer is the updated playlist, or 404 "Playlist not found" |
| Playlists.PlaylistCollection.DeletePlaylist | src/controllers/playlist.controller.js:53-64 | the collection becomes RemoveOwned of the old one; the answer is 200 with an empty body, or 404 "Playlist not found" |
| UserProfile.ParseFavoriteType | src/models/user.model.js:160-163 | exactly "Station", "Track" and "Album" are accepted |
| UserProfile.WithFavorite | src/models/user.model.js:164-167 | the id is present afterwards, a list that already holds it is unchanged, nothing else is added, the old list is a prefix, and a list without duplicates keeps none |
| UserProfile.WithoutFavorite | src/models/user.model.js:175-176 | the result holds exactly the ids of the list other than the removed one |
| UserProfile.AddFavoriteIdempotent | src/models/user.model.js:165-167 | adding twice is adding once |
| UserProfile.RemoveFavoriteDistributes | src/models/user.model.js:176 | removal works element by element, so it keeps order |
| UserProfile.RemoveFavoriteCounts | src/models/user.model.js:176 | removal drops every copy of the id and keeps every other id as often as it occurred |
| UserProfile.RemoveUndoesAdd | src/models/user.model.js:159-177 | removing an id just added to a list that lacked it gives back the list |
| UserProfile.PushRecent | src/models/user.model.js:179-184 | the new entry comes first, the old entries follow in order, and the oldest is dropped past fifty |
| UserProfile.RecentStaysBounded | src/models/user.model.js:179-184 | a queue of at most fifty stays at most fifty and keeps its newest entries |
| UserProfile.NewestFirst | src/models/user.model.js:180 | of two plays in a row, the later is first and the earlier second |
| UserProfile.UsernameRefusal | src/models/user.model.js:218-228 | a change is refused exactly when the name fails ^[a-z0-9_]+$ or less than thirty days have passed; the format is checked first |
| UserProfile.ValidUsernameIsLowercase | src/models/user.model.js:219 | an accepted name is non-empty and has no upper-case letter |
| UserProfile.CooldownBoundary | src/models/user.model.js:223-226 | the cooldown is 2,592,000,000 ms; exactly thirty days is enough and one millisecond less is not |
| UserProfile.NoSecondChangeWithinCooldown | src/models/user.model.js:226-231 | after a change, any further change less than thirty days later is refused |
| UserProfile.MergePreferences | src/models/user.model.js:201-203 | every key of the update wins, and keys it lacks keep their old value |
| UserProfile.MergeIdempotent | src/models/user.model.js:202 | merging the same update twice is merging once; an empty update changes nothing |
| UserProfile.User.AddFavorite | src/models/user.model.js:159-168 | an invalid type throws "Invalid favorite type" and changes nothing; otherwise only that kind's list changes, to WithFavorite |
| UserProfile.User.RemoveFavorite | src/models/user.model.js:170-177 | an invalid type throws and changes nothing; otherwise only that kind's list changes, to WithoutFavorite |
| UserProfile.User.AddFavoriteStation | src/models/user.model.js:205-207 | adds to the station favourites only |
| UserProfile.User.RemoveFavoriteStation | src/models/user.model.js:209-211 | removes from the station favourites only |
| UserProfile.User.AddRecentlyPlayed | src/models/user.model.js:179-184 | the queue becomes PushRecent of the old one |
| UserProfile.User.AddRecentlyPlayedStation | src/models/user.model.js:213-215 | pushes a "RadioStation" entry |
| UserProfile.User.CreatePlaylist | src/models/user.model.js:186-199 | returns an empty playlist owned by this user, named by the trimmed name, description "" and private unless given, and appends its id to the user's playlists |
| Playlists.Trim | src/models/playlist.model.js:9 | the trimmed name has no white space at either end and is no longer than the given one |
| Playlists.TrimOfPadded | src/models/playlist.model.js:9 | trimming removes exactly the white space around the text: padding a text without edge white space on both sides trims back to it |
| Playlists.TrimIdempotent | src/models/playlist.model.js:9 | trimming a trimmed name changes nothing |
| UserProfile.User.UpdatePreferences | src/models/user.model.js:201-203 | the preferences become MergePreferences of the old ones |
| UserProfile.User.ChangeUsername | src/models/user.model.js:218-232 | a refused change throws its message and changes nothing; an accepted one sets the name and the change instant to now |
| Share.PlainShareUrl | src/controllers/share.controller.js:4-22 | without a known platform the link is the base URL (FRONTEND_URL, else http://localhost:3000), "/music/?t=" and the unencoded track id |
| Share.PlatformShareUrl | src/controllers/share.controller.js:8-16 | for facebook, twitter and whatsapp the link is the platform prefix then an encoded part that decodes to the plain link and has no : / ? = & # |
| Share.TrackDoc.RecordShare | src/controllers/share.controller.js:39 | the count goes up by exactly one, an absent count counting as 0 |
| Share.ShareTrack | src/controllers/share.controller.js:25-45 | 400 for a missing id, 404 for an unknown track, both changing no counter; otherwise the generated link and one more share of that track only |
| Share.GetShareLink | src/controllers/share.controller.js:47-64 | the same checks, and always the plain link |
| Share.HandleShareTrack | src/controllers/share.controller.js:66-85 | the same checks, one more share of that track only, and the track itself |
| UriComponent.HexValue | src/controllers/share.controller.js:9 | a value exactly for the sixteen hex digits in either case, below 16 |
| UriComponent.Escape | src/controllers/share.controller.js:9 | three characters per byte, each a percent sign or unreserved |
| UriComponent.HexDigitValue | src/controllers/share.controller.js:9 | reading back a written hex digit gives its value |
| UriComponent.ReadEscapesOfEscape | src/controllers/share.controller.js:9 | reading n escapes back from n written ones gives the bytes |
| UriComponent.Utf8RoundTrip | src/controllers/share.controller.js:9 | the lead byte announces the length, and decoding the UTF-8 bytes of a character gives it back |
| UriComponent.DecodeEncodeChar | src/controllers/share.controller.js:9 | decoding one encoded character followed by more text gives the character followed by the decoded text |
| UriComponent.DecodeEncode | src/controllers/share.controller.js:9 | decodeURIComponent(encodeURIComponent(s)) is s |
| UriComponent.EncodeIsSafe | src/controllers/share.controller.js:9 | the encoded text holds only unreserved characters and percent signs |
| UriComponent.EncodeHasNoDelimiters | src/controllers/share.controller.js:9 | the encoded text holds no : / ? = & # |
| UriComponent.EncodeUnreservedIdentity | src/controllers/share.controller.js:9 | text of unreserved characters is left as it is |

## Left out

- Database execution (`find`, `countDocuments`, `aggregate`, `findOneAndUpdate`, `findOneAndDelete`, `save`) is replaced by functions over in-memory sequences and maps; invalid ObjectId casts, timeouts and other driver errors (the 500 paths) are not modelled.
- `populate("artist")` and `populate("owner")` in the search handler are not modelled. The playlist schema has no `owner` path, so that call's behaviour depends on the Mongoose version.
- The regular-expression engine behind `new RegExp(query, "i")` is a parameter: a match predicate, or None when the pattern does not compile (answered 500).
- `localeCompare` is a parameter: a real-valued collation key. `toLowerCase` is modelled on ASCII letters only.
- `Promise.all` in the search handler runs its four queries concurrently; the model runs them one after another, which gives the same positional results.
- Query-string parsing is not modelled: page and limit arrive as integers, so non-numeric strings (NaN arithmetic) are outside the model. A negative skip is answered 500, because MongoDB rejects it.
- A record without any of `username`, `title`, `name` makes the comparator throw a TypeError; the model reads the empty string instead. `WellFormed` states the schema shape under which this cannot happen.
- SearchRanking.SortResults: when a record matches the query exactly, the comparator answers -1 when comparing it with itself (and with any other exact match), so it is not consistent and ECMA-262 leaves the sort order to the engine. The model's insertion sort yields one ranked, stable order, with exact matches first; it does not claim to be the order a particular engine produces. Without exact matches its result is the one ECMA-262 prescribes (`RankedIffEcmaSorted`).
- Playlists.PlaylistCollection.UpdatePlaylist: the playlist record leaves out the schema's `coverArt` field and the `createdAt`/`updatedAt` timestamps (`timestamps: true`). The model therefore does not capture that `findOneAndUpdate` also sets `updatedAt`, nor that the returned document carries these fields.
- The `$sample` draw and the calendar arithmetic `setMonth(getMonth() - 1)` are parameters (`sample`, `cutoff`); `Date.now` is the `now` parameter.
- TopPicks.SortByPlays: MongoDB does not fix the order of albums with equal plays; the model keeps collection order among them.
- TopPicks.Lookup: the order of the joined tracks is the track collection's order; `SumOfPermutation` shows the sums do not depend on it.
- TopPicks.AverageInstant: the intended average release date is truncated to the millisecond; `MatchIffEligible` shows the filter result is the same as with the exact average.
- Floating-point rounding of `$avg` and of JavaScript numbers is not modelled: integers and reals are exact.
- Persistence of `shareCount` is not modelled: the field is not in the track schema, so whether the save keeps it depends on strict mode. Only the in-memory increment is modelled.
- UserProfile.User.UpdatePreferences: keys outside the schema's `genres` and `language` are kept in the model; Mongoose strict mode would drop them on save.
- UserProfile.User.AddRecentlyPlayed: the `itemType` enum (`RadioStation`, `Track`) is checked by the schema on save, not by the method, and is not modelled.
- UserProfile.User.ChangeUsername: a non-string argument (for example `undefined`, which the regular expression tests as the text "undefined") is outside the model.
- UriComponent.Encode: Dafny characters are Unicode scalar values, so the URIError that `encodeURIComponent` throws on a lone surrogate cannot arise.
- The music and station controllers, the authentication middleware, password hashing and JWT methods of the user model, the Spotify import script and the route files are not part of this model: they are I/O, foreign libraries or thin wrappers over the modelled methods.
- The validation and error handling of the other playlist handlers (create, get by id, list) are not part of this model beyond `UserProfile.User.CreatePlaylist`.

## Findings

| source | as written | input that shows it | evidently intended | confidence | as-written member | corrected member |
|---|---|---|---|---|---|---|
| src/controllers/playlist.controller.js:112-119 | `avgReleaseDate` is `$avg` over the tracks' `releaseDate`, which are Dates; `$avg` skips non-numeric operands, so the field is null, and `$gte` with a Date never matches null | an album with one track released today and a cutoff one month ago: it is not ranked, and the response is the random sample | rank the albums whose average track release instant is on or after the cutoff | medium (follows MongoDB's documented `$avg` and comparison rules), not executed | TopPicks.AsWrittenAlwaysFallsBack | TopPicks.MatchIffEligible |

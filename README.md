# User profiles and standup bookkeeping of a messaging backend

A Dafny model of two pieces of a messaging-platform backend that keeps all
of its state in one in-memory store:

- the user-profile operations of `src/user.py`: `users_all_v1`,
  `user_profile_v1`, the three setters `user_profile_setname_v1`,
  `user_profile_setemail_v1` and `user_profile_sethandle_v1`, the email
  pattern they use, and the argument checks of `user_profile_uploadphoto_v1`;
- the standup bookkeeping of `src/standup.py`: the checks `standup_start_v1`
  makes, and `standup_end`, which posts a channel's buffered standup lines as
  one message.

Layout:

- `datastore.dfy` (module `DataStore`): the records (`User`, `Message`,
  `MessageEntry`), the `Channel` and `Store` classes, the error kinds, and the
  helpers of `src/helpers.py`, which is not part of this model and is given
  abstract contracts: `ValidateToken` (a live token yields its user id,
  anything else AccessError), `Select` (`filter_data_store(list, key, value)`)
  and `Project` (`filter_data_store(list, key)`).
- `text.dfy` (module `Text`): the string operations the code relies on
  (`str.endswith`, `str.isalnum`, `"\n".join`); `IndexOf` and `LastIndexOf`,
  the first- and last-occurrence searches that `IsValidEmail` is built from;
  and `SplitLines`, a reference inverse of the join, used to state its round
  trip.
- `user.dfy` (module `Users`) and `standup.dfy` (module `Standups`): one per
  source file.

Each setter is a method over the `Store` that rewrites `users` in place with
a loop, as the source does, and is proved equal to a pure function
(`SetNameResult`, `SetEmailResult`, `SetHandleResult`) that returns the new
user list or the error. A failing call leaves `users` as it was; a
successful one rewrites only the field that the setter is about, in every
record carrying the caller's id, which with unique ids is the caller's
record alone. Lemmas about these functions state the properties the setters
promise: with unique ids and the caller among the active users, exactly one
record changes; a setname call whose caller has no active record succeeds
and changes nothing. Id, email and handle uniqueness among active users is
preserved, and a profile lookup afterwards shows the new value.

Errors are one constructor per `raise` statement. `Error.Kind` maps each to
InputError or AccessError. `NoSuchUser` has kind `Uncaught`: it stands for
the IndexError that `filter_data_store(...)[0]` raises in the email and
handle setters (`src/user.py:165`, `src/user.py:215`) when a token's user is
not an active user.

Where the code does not do what its comments announce, the model follows
the code:

- The comments at `src/standup.py:26` and `src/standup.py:52` say that a
  standup start sets the channel's active flag and that the end clears it.
  Lines 27 and 53 are `==` comparisons, not assignments, so neither function
  changes the flag. `StandupEnd` states that the flag keeps its value, and
  `StandupStart` changes nothing.
- The email check is the regular expression of `src/user.py:7`, whose final
  character class also admits `|`. This is modelled exactly.
- The upload-photo argument checks run before the token is validated
  (`src/user.py:233-245`), against the token-first order of the other
  operations.

## Model

| member | source | states |
|---|---|---|
| `DataStore.ValidateToken` | src/user.py:120 | a live token yields exactly the user id it is bound to; any other token is an InvalidToken AccessError |
| `DataStore.Select` | src/user.py:165 | the result holds exactly the records whose key equals the value, is empty iff none does, and starts with the first such record in store order |
| `DataStore.Project` | src/user.py:169 | the result has one entry per record, in store order, each that record's key |
| `DataStore.InProject` | src/user.py:172 | a value is in the projected list iff some record has it as its key |
| `Users.UsersAll` | src/user.py:35-51 | an invalid token gives AccessError; otherwise one profile per active user, same order, with id, email, both names and handle copied; when ids of active and removed users are disjoint, no removed user's id is listed |
| `Users.UserProfile` | src/user.py:77-95 | the token is checked first (invalid token gives AccessError whatever the id); InvalidUId iff no active or removed record has the id; otherwise the first active match, or failing that the first removed match |
| `Users.ProfileOfUniqueUser` | src/user.py:82-86 | with unique ids across both lists, the profile returned for a user's id is exactly that user's, active or removed |
| `Users.Apply` | src/user.py:133-134 | overwriting a field keeps the record's id |
| `Users.Rewrite` | src/user.py:176-178 | every record with the caller's id gets the new field value, and every other record and the order are unchanged |
| `Users.RewriteOneRecord` | src/user.py:226-228 | with unique ids, the rewrite replaces the caller's record and no other |
| `Users.RewriteInPlace` | src/user.py:175-179 | the in-place loop leaves the user list exactly as `Rewrite` describes |
| `Users.ProfileAfterRewrite` | src/user.py:225-229 | after a rewrite, looking the caller up returns their updated record |
| `Users.SetNameResult` | src/user.py:120-135 | with unique ids: invalid token, then first-name length outside 1..50, then last-name length outside 1..50, each error exactly when the earlier checks pass; success changes only the caller's two name fields; a caller with no active record succeeds with nothing changed |
| `Users.SetNameLengthChecksIgnoreStore` | src/user.py:122-127 | a bad name length is an error decided without regard to the users in the store |
| `Users.SetNameCaller` | src/user.py:128-134 | with unique ids, the call fails with SameName iff both names equal the caller's current ones; otherwise exactly the caller's record changes, in those two fields |
| `Users.RenameKeepsKeys` | src/user.py:133-134 | renaming leaves every id, email and handle at its position, so the list of each is unchanged and each uniqueness survives |
| `Users.SetNameKeepsEmailsAndHandles` | src/user.py:133-134 | after a successful call every id, email and handle is as it was, ids stay unique, and email and handle uniqueness survive |
| `Users.RenameInPlace` | src/user.py:127-134 | the loop stops with nothing changed iff the first record with the caller's id already has both names; otherwise it renames exactly the records with that id, none of which had both names |
| `Users.SetName` | src/user.py:98-136 | with unique ids, the method's outcome and new user list are those of `SetNameResult`; on failure the users are unchanged; only `users` is written |
| `Users.IsValidEmail` | src/user.py:162 | a string the check accepts matches the email pattern, with at least one character before its first `@`, at least one between that `@` and its last `.`, and at least two after that `.` |
| `Text.IsAlnum` | src/user.py:211 | true iff the string is non-empty and every character is an ASCII letter or digit |
| `Users.EmailCheckMatchesPattern` | src/user.py:7 | the executable check accepts a string iff the whole string matches the email pattern for some split into local part, domain and final part |
| `Users.EmailPatternAcceptsUsual` | src/user.py:7 | an ordinary address is accepted |
| `Users.EmailPatternAcceptsBar` | src/user.py:7 | `|` is accepted in the final part |
| `Users.EmailPatternRefusesShortTld` | src/user.py:7 | a final part of one letter is refused |
| `Users.EmailPatternRefusesTwoAts` | src/user.py:7 | a second `@` is refused |
| `Users.SetEmailResult` | src/user.py:159-179 | invalid token, then a pattern mismatch, then a caller with no active record, each error exactly when the earlier checks pass; EmailInUse only when some active user holds the email; success changes only the caller's email, to one no active user held |
| `Users.SetEmailCaller` | src/user.py:165-173 | with unique ids and a well-formed email: SameEmail iff it is the caller's own; EmailInUse iff another active user holds it; success, changing exactly the caller's record, iff no active user holds it |
| `Users.FreshEmailStaysDistinct` | src/user.py:172-178 | giving the caller an email no active user holds keeps active emails pairwise distinct and ids unique, and leaves every id and handle at its position |
| `Users.SetEmailKeepsEmailsDistinct` | src/user.py:169-178 | if active ids were unique and emails pairwise distinct, both still hold after a successful call, as does handle uniqueness; every id and handle stays at its position |
| `Users.SetEmailThenProfile` | src/user.py:175-179 | after a successful call, the caller's profile shows the new email |
| `Users.SetEmail` | src/user.py:138-180 | the method's outcome and new user list are those of `SetEmailResult`; on failure the users are unchanged; only `users` is written |
| `Users.SetHandleResult` | src/user.py:206-229 | invalid token, then a length outside 3..20, then a non-alphanumeric handle, then a caller with no active record, each error exactly when the earlier checks pass; HandleInUse only when some active user holds the handle; success changes only the caller's handle, to one no active user held |
| `Users.SetHandleCaller` | src/user.py:215-223 | with unique ids and a well-formed handle: SameHandle iff it is the caller's own; HandleInUse iff another active user holds it; success, changing exactly the caller's record, iff no active user holds it |
| `Users.FreshHandleStaysDistinct` | src/user.py:222-228 | giving the caller a handle no active user holds keeps active handles pairwise distinct and ids unique, and leaves every id and email at its position |
| `Users.SetHandleKeepsHandlesDistinct` | src/user.py:219-228 | if active ids were unique and handles pairwise distinct, both still hold after a successful call, as does email uniqueness; every id and email stays at its position |
| `Users.SetHandleThenProfile` | tests/user_profile_sethandle_v1_test.py:113-127 | after a successful call, the caller's profile shows the new handle |
| `Users.SetHandle` | src/user.py:183-230 | the method's outcome and new user list are those of `SetHandleResult`; on failure the users are unchanged; only `users` is written |
| `Text.EndsWith` | src/user.py:233 | true iff the suffix is no longer than the string and matches its last characters one by one |
| `Users.UploadPhotoChecks` | src/user.py:232-245 | the checks pass iff the URL ends in `.jpg`, both ends are not below their starts, both starts are non-negative and the token is live; the token is reported only when every argument check passed |
| `Users.UploadPhotoArgumentsBeforeToken` | src/user.py:233-243 | a bad argument gives the same InputError whatever the token and session table |
| `Standups.ChannelIds` | src/standup.py:14 | one id per channel of the store, in store order, each that channel's id |
| `Standups.ChannelById` | src/standup.py:17 | the channel returned has the requested id, is in the store, and is the first one with that id |
| `Standups.StandupStart` | src/standup.py:8-27 | token (AccessError), unknown channel (InputError), caller not a member (AccessError), negative length (InputError), standup already active (InputError), each reported exactly when every earlier check passed; no check writes anything |
| `Standups.NextMessageId` | src/standup.py:41 | the new id is positive and exceeds the number of live and removed messages |
| `Standups.NextMessageIdIsFresh` | src/standup.py:41 | when every message id lies in 1..(live + removed count), the new id belongs to no live or removed message, and the bound still holds after the insertion |
| `Standups.StandupEnd` | src/standup.py:36-53 | the buffered lines joined with newlines become one message with id live + removed + 1 (counted before insertion), the starter as author and the finish time as date; it is put first in the channel's list and, with the channel id, first in the store's list, the rest keeping their order; the active flag and the buffer keep their values |
| `Text.JoinLines` | src/standup.py:39 | joining no lines gives the empty text and one line gives that line |
| `Text.SplitJoinLines` | src/standup.py:39 | splitting the joined text of a non-empty list of newline-free lines gives back that list |
| `Text.JoinLinesLength` | src/standup.py:39 | the joined text is as long as all lines together plus one separator between each two of them |

## Left out

- `src/server.py`: HTTP routing, CORS, JSON error formatting and signal handling. This is I/O plumbing.
- `src/helpers.py` and `src/data_store.py` are not part of this model. Token decoding is a lookup in a session table, `sessions`. Filtering is `Select` and `Project`, and the global store is the `Store` object passed to every operation.
- `user_profile_uploadphoto_v1` after its checks: the download, the image-size check against the downloaded picture and the crop (`src/user.py:247-258`). These are network and file I/O. `UploadPhotoChecks` ends where the download would start. `OutsideImage` is used for the negative-start check only.
- `standup_start_v1` after its checks (`src/standup.py:29-34`): the clock, the finish time it returns, and the timer. Lines 29 and 31 call an attribute that `timedelta` lacks and an undefined name. `StandupStart` returns `Pass` where these lines would begin. `standup_end` is modelled as a separately callable method.
- Running `standup_end` on a timer thread, concurrently with requests. The model treats each call as atomic.
- `RenameInPlace`, `SetName`, `SetNameResult`, `SetNameLengthChecksIgnoreStore` and `SetNameKeepsEmailsAndHandles`: they require unique ids among active users. With duplicate ids, the source loop could change one record and then raise SameName on a later one. That partial update is not modelled.
- `str.isalnum` is modelled for ASCII letters and digits only; Python's Unicode letters and digits are not.
- `profile_img_url`: `src/user.py` never produces or returns it.
- Behaviour visible only in tests whose implementation is outside this model: registration and handle generation, login, channel and DM operations, message pagination and scheduled sends.
- The `password` and `permission` fields of a user are carried unchanged. No modelled operation reads them.

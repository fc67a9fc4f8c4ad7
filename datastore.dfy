/** The process-wide in-memory store and the helpers every operation uses to
    read it: token validation and the two forms of record filtering.  Only
    their observable contracts are modelled. */
module DataStore {

  /** The two error kinds the boundary layer reports, plus the uncaught Python
      exception raised when a lookup indexes an empty filter result. */
  datatype ErrorKind = InputError | AccessError | Uncaught

  /** One constructor per raise statement of the modelled operations. */
  datatype Error =
    | InvalidToken           // validate_token
    | InvalidUId             // user_profile_v1
    | NameFirstLength        // user_profile_setname_v1
    | NameLastLength
    | SameName
    | InvalidEmail           // user_profile_setemail_v1
    | SameEmail
    | EmailInUse
    | HandleLength           // user_profile_sethandle_v1
    | HandleNotAlnum
    | SameHandle
    | HandleInUse
    | NotJpg                 // user_profile_uploadphoto_v1
    | XEndBeforeStart
    | YEndBeforeStart
    | OutsideImage
    | InvalidChannel         // standup_start_v1
    | NotChannelMember
    | NegativeLength
    | StandupAlreadyActive
    | NoSuchUser             // IndexError from filter_data_store(...)[0]
  {
    function Kind(): ErrorKind {
      match this
      case InvalidToken | NotChannelMember => AccessError
      case NoSuchUser => Uncaught
      case _ => InputError
    }
  }

  datatype Result<T> = Ok(value: T) | Err(error: Error)

  /** The result of an operation that returns `{}` on success. */
  datatype Outcome = Pass | Fail(error: Error)

  /** A record of store['users'] / store['removed_users']. */
  datatype User = User(
    id: int,
    email: string,
    password: string,
    nameFirst: string,
    nameLast: string,
    handle: string,
    permission: int)

  /** A message as kept in a channel's 'messages' list. */
  datatype Message = Message(messageId: int, uId: int, text: string, timeCreated: int)

  /** An entry of store['messages']: the message and the channel holding it. */
  datatype MessageEntry = MessageEntry(message: Message, channelId: int)

  /** A channel record.  Operations hold a reference to the record they found
      in store['channels'] and update it in place, so it is an object. */
  class Channel {
    const id: int
    var members: seq<int>
    var messages: seq<Message>
    var standupActive: bool
    var standupMessages: seq<string>

    /** A new channel record: no members, no messages and no standup. */
    constructor (id: int)
      ensures this.id == id
      ensures members == [] && messages == []
      ensures !standupActive && standupMessages == []
    {
      this.id := id;
      members := [];
      messages := [];
      standupActive := false;
      standupMessages := [];
    }
  }

  /** The store, with the session table that validate_token consults. */
  class Store {
    var users: seq<User>
    var removedUsers: seq<User>
    var channels: seq<Channel>
    var messages: seq<MessageEntry>
    var removedMessages: seq<MessageEntry>
    var sessions: map<string, int>

    /** An empty store with no live sessions. */
    constructor ()
      ensures users == [] && removedUsers == [] && channels == []
      ensures messages == [] && removedMessages == [] && sessions == map[]
    {
      users := [];
      removedUsers := [];
      channels := [];
      messages := [];
      removedMessages := [];
      sessions := map[];
    }
  }

  /** validate_token: the user id bound to a live token, or AccessError. */
  function ValidateToken(sessions: map<string, int>, token: string): (r: Result<int>)
    ensures r.Ok? <==> token in sessions
    ensures r.Ok? ==> r.value == sessions[token]
    ensures r.Err? ==> r.error == InvalidToken && r.error.Kind() == AccessError
  {
    if token in sessions then Ok(sessions[token]) else Err(InvalidToken)
  }

  /** filter_data_store(list, key, value): the records whose key equals
      `value`, in store order. */
  function Select<T(==), K(==)>(list: seq<T>, key: T -> K, value: K): (r: seq<T>)
    ensures forall x :: x in r ==> x in list && key(x) == value
    ensures forall i :: 0 <= i < |list| && key(list[i]) == value ==> list[i] in r
    ensures r == [] <==> forall i :: 0 <= i < |list| ==> key(list[i]) != value
    ensures forall i :: FirstWithKey(list, key, value, i) ==> r != [] && r[0] == list[i]
  {
    if list == [] then []
    else
      var rest := Select(list[1..], key, value);
      assert forall i :: 1 <= i < |list| ==> list[i] == list[1..][i - 1];
      assert forall i :: FirstWithKey(list, key, value, i) && i > 0 ==>
        FirstWithKey(list[1..], key, value, i - 1);
      if key(list[0]) == value then [list[0]] + rest else rest
  }

  /** `i` is the first position of `list` whose key is `value`. */
  predicate FirstWithKey<T, K(==)>(list: seq<T>, key: T -> K, value: K, i: int) {
    0 <= i < |list| && key(list[i]) == value &&
    forall j :: 0 <= j < i ==> key(list[j]) != value
  }

  /** filter_data_store(list, key): the key of every record, in store order. */
  function Project<T, K>(list: seq<T>, key: T -> K): (r: seq<K>)
    ensures |r| == |list|
    ensures forall i :: 0 <= i < |list| ==> r[i] == key(list[i])
  {
    if list == [] then [] else [key(list[0])] + Project(list[1..], key)
  }

  /** A key is in the projection iff some record has it. */
  lemma InProject<T, K>(list: seq<T>, key: T -> K, value: K)
    ensures value in Project(list, key) <==> exists i :: 0 <= i < |list| && key(list[i]) == value
  {
    var keys := Project(list, key);
    if value in keys {
      var i :| 0 <= i < |keys| && keys[i] == value;
      assert key(list[i]) == value;
    }
  }

  /** No two records of `users` share an id. */
  predicate UniqueIds(users: seq<User>) {
    forall i, j :: 0 <= i < j < |users| ==> users[i].id != users[j].id
  }

  /** No two active users share an email. */
  predicate DistinctEmails(users: seq<User>) {
    forall i, j :: 0 <= i < j < |users| ==> users[i].email != users[j].email
  }

  /** No two active users share a handle. */
  predicate DistinctHandles(users: seq<User>) {
    forall i, j :: 0 <= i < j < |users| ==> users[i].handle != users[j].handle
  }
}

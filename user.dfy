/** The user-profile operations: listing the active users, looking one up,
    and changing the caller's names, email or handle. */
module Users {
  import opened Text
  import opened DataStore

  /** The dictionary returned for one user by users_all_v1 and user_profile_v1. */
  datatype Profile = Profile(uId: int, email: string, nameFirst: string, nameLast: string, handle: string)

  function ProfileOf(u: User): Profile {
    Profile(u.id, u.email, u.nameFirst, u.nameLast, u.handle)
  }

  // The record keys handed to filter_data_store.
  function IdOf(u: User): int { u.id }
  function EmailOf(u: User): string { u.email }
  function HandleOf(u: User): string { u.handle }

  // ---------------------------------------------------------------------------
  // users_all_v1

  /** Validates the token, then copies five fields of every active user, in
      store order.  Removed users are never listed. */
  method UsersAll(s: Store, token: string) returns (r: Result<seq<Profile>>)
    ensures r.Err? <==> token !in s.sessions
    ensures r.Err? ==> r.error == InvalidToken
    ensures r.Ok? ==> |r.value| == |s.users|
    ensures r.Ok? ==> forall i :: 0 <= i < |s.users| ==> r.value[i] == ProfileOf(s.users[i])
    ensures r.Ok? && (forall i, j :: 0 <= i < |s.users| && 0 <= j < |s.removedUsers| ==>
                        s.users[i].id != s.removedUsers[j].id) ==>
              forall p, j :: p in r.value && 0 <= j < |s.removedUsers| ==> p.uId != s.removedUsers[j].id
  {
    var v := ValidateToken(s.sessions, token);
    if v.Err? {
      return Err(v.error);
    }
    var listOfUser: seq<Profile> := [];
    var i := 0;
    while i < |s.users|
      invariant 0 <= i <= |s.users|
      invariant |listOfUser| == i
      invariant forall k :: 0 <= k < i ==> listOfUser[k] == ProfileOf(s.users[k])
    {
      listOfUser := listOfUser + [ProfileOf(s.users[i])];
      i := i + 1;
    }
    r := Ok(listOfUser);
  }

  // ---------------------------------------------------------------------------
  // user_profile_v1

  /** Validates the token first, then returns the first record with id `uId`
      among the active users followed by the removed users. */
  function UserProfile(users: seq<User>, removedUsers: seq<User>, sessions: map<string, int>,
                       token: string, uId: int): (r: Result<Profile>)
    ensures token !in sessions ==> r == Err(InvalidToken)
    ensures token in sessions ==>
      (r == Err(InvalidUId) <==>
         (forall i :: 0 <= i < |users| ==> users[i].id != uId) &&
         (forall i :: 0 <= i < |removedUsers| ==> removedUsers[i].id != uId))
    ensures r.Err? ==> r == Err(InvalidToken) || r == Err(InvalidUId)
    ensures token in sessions ==>
      forall k :: FirstWithKey(users, IdOf, uId, k) ==> r == Ok(ProfileOf(users[k]))
    ensures token in sessions && (forall i :: 0 <= i < |users| ==> users[i].id != uId) ==>
      forall k :: FirstWithKey(removedUsers, IdOf, uId, k) ==> r == Ok(ProfileOf(removedUsers[k]))
  {
    match ValidateToken(sessions, token)
    case Err(e) => Err(e)
    case Ok(_) =>
      var all := users + removedUsers;
      assert forall i :: 0 <= i < |users| ==> all[i] == users[i];
      assert forall i :: 0 <= i < |removedUsers| ==> all[|users| + i] == removedUsers[i];
      assert forall k :: FirstWithKey(users, IdOf, uId, k) ==> FirstWithKey(all, IdOf, uId, k);
      assert (forall i :: 0 <= i < |users| ==> users[i].id != uId) ==>
        forall k :: FirstWithKey(removedUsers, IdOf, uId, k) ==> FirstWithKey(all, IdOf, uId, |users| + k);
      var user := Select(all, IdOf, uId);
      if user == [] then Err(InvalidUId) else Ok(ProfileOf(user[0]))
  }

  /** With unique ids across both lists, a valid token returns exactly the
      profile of the user whose id is asked for, active or removed. */
  lemma ProfileOfUniqueUser(users: seq<User>, removedUsers: seq<User>, sessions: map<string, int>,
                            token: string, k: nat)
    requires UniqueIds(users + removedUsers)
    requires token in sessions
    requires k < |users + removedUsers|
    ensures UserProfile(users, removedUsers, sessions, token, (users + removedUsers)[k].id)
            == Ok(ProfileOf((users + removedUsers)[k]))
  {
    var all := users + removedUsers;
    var uId := all[k].id;
    if k < |users| {
      assert all[k] == users[k];
      forall j | 0 <= j < k ensures users[j].id != uId {
        assert all[j] == users[j];
      }
      assert FirstWithKey(users, IdOf, uId, k);
    } else {
      var m := k - |users|;
      assert all[k] == removedUsers[m];
      forall i | 0 <= i < |users| ensures users[i].id != uId {
        assert all[i] == users[i];
      }
      forall j | 0 <= j < m ensures removedUsers[j].id != uId {
        assert all[|users| + j] == removedUsers[j];
      }
      assert FirstWithKey(removedUsers, IdOf, uId, m);
    }
  }

  // ---------------------------------------------------------------------------
  // The in-place rewrite shared by the three setters

  /** The field a setter overwrites. */
  datatype Change = NewNames(first: string, last: string) | NewEmail(email: string) | NewHandle(handle: string)

  function Apply(u: User, c: Change): (v: User)
    ensures v.id == u.id
  {
    match c
    case NewNames(f, l) => u.(nameFirst := f, nameLast := l)
    case NewEmail(e) => u.(email := e)
    case NewHandle(h) => u.(handle := h)
  }

  /** `after` is `before` with `c` applied to every record whose id is `uId`
      and every other record left as it was. */
  predicate Rewritten(before: seq<User>, after: seq<User>, uId: int, c: Change) {
    |after| == |before| &&
    forall i :: 0 <= i < |before| ==>
      after[i] == if before[i].id == uId then Apply(before[i], c) else before[i]
  }

  function Rewrite(users: seq<User>, uId: int, c: Change): (r: seq<User>)
    ensures Rewritten(users, r, uId, c)
  {
    if users == [] then []
    else
      var rest := Rewrite(users[1..], uId, c);
      [if users[0].id == uId then Apply(users[0], c) else users[0]] + rest
  }

  /** With unique ids, the rewrite touches the caller's record and nothing else. */
  lemma RewriteOneRecord(users: seq<User>, k: nat, c: Change)
    requires UniqueIds(users)
    requires k < |users|
    ensures Rewrite(users, users[k].id, c) == users[k := Apply(users[k], c)]
  {
    var r := Rewrite(users, users[k].id, c);
    forall i | 0 <= i < |users| ensures r[i] == users[k := Apply(users[k], c)][i] {
      if i != k {
        assert users[i].id != users[k].id;
      }
    }
  }

  /** The loop of the email and handle setters: overwrite the field of every
      record whose id is the caller's. */
  method RewriteInPlace(s: Store, uId: int, c: Change)
    modifies s`users
    ensures Rewritten(old(s.users), s.users, uId, c)
  {
    var i := 0;
    while i < |s.users|
      invariant 0 <= i <= |s.users| == |old(s.users)|
      invariant forall j :: 0 <= j < |s.users| ==>
        s.users[j] == if j < i && old(s.users)[j].id == uId then Apply(old(s.users)[j], c) else old(s.users)[j]
    {
      if s.users[i].id == uId {
        s.users := s.users[i := Apply(s.users[i], c)];
      }
      i := i + 1;
    }
  }

  /** `Rewrite` is the only list that `Rewritten` admits. */
  lemma RewrittenIsRewrite(before: seq<User>, after: seq<User>, uId: int, c: Change)
    requires Rewritten(before, after, uId, c)
    ensures after == Rewrite(before, uId, c)
  {
    var r := Rewrite(before, uId, c);
    assert forall i :: 0 <= i < |after| ==> after[i] == r[i];
  }

  /** Renaming keeps every id, email and handle in place, and so keeps each of
      them unique among active users. */
  lemma RenameKeepsKeys(before: seq<User>, after: seq<User>, uId: int, nameFirst: string, nameLast: string)
    requires Rewritten(before, after, uId, NewNames(nameFirst, nameLast))
    ensures forall i :: 0 <= i < |after| ==>
              after[i].id == before[i].id && after[i].email == before[i].email && after[i].handle == before[i].handle
    ensures UniqueIds(before) ==> UniqueIds(after)
    ensures DistinctEmails(before) ==> DistinctEmails(after)
    ensures DistinctHandles(before) ==> DistinctHandles(after)
    ensures Project(after, EmailOf) == Project(before, EmailOf)
    ensures Project(after, HandleOf) == Project(before, HandleOf)
    ensures Project(after, IdOf) == Project(before, IdOf)
  {
    forall i | 0 <= i < |after|
      ensures after[i].id == before[i].id && after[i].email == before[i].email && after[i].handle == before[i].handle
    {
    }
    assert forall i :: 0 <= i < |after| ==> Project(after, EmailOf)[i] == Project(before, EmailOf)[i];
    assert forall i :: 0 <= i < |after| ==> Project(after, HandleOf)[i] == Project(before, HandleOf)[i];
    assert forall i :: 0 <= i < |after| ==> Project(after, IdOf)[i] == Project(before, IdOf)[i];
  }

  /** A rewrite keeps every record's id, so a profile lookup after it finds the
      caller's updated record. */
  lemma ProfileAfterRewrite(users: seq<User>, removedUsers: seq<User>, sessions: map<string, int>,
                            token: string, k: nat, c: Change)
    requires UniqueIds(users)
    requires token in sessions
    requires k < |users| && users[k].id == sessions[token]
    ensures UserProfile(Rewrite(users, sessions[token], c), removedUsers, sessions, token, sessions[token])
            == Ok(ProfileOf(Apply(users[k], c)))
    ensures var p := UserProfile(Rewrite(users, sessions[token], c), removedUsers, sessions, token, sessions[token]);
            p.Ok? && p.value.uId == sessions[token] &&
            (c.NewEmail? ==> p.value.email == c.email) && (c.NewHandle? ==> p.value.handle == c.handle)
  {
    var uId := sessions[token];
    var after := Rewrite(users, uId, c);
    assert after[k] == Apply(users[k], c);
    forall j | 0 <= j < k ensures after[j].id != uId {
      assert users[j].id != users[k].id;
    }
    assert FirstWithKey(after, IdOf, uId, k);
  }

  // ---------------------------------------------------------------------------
  // user_profile_setname_v1

  predicate ValidNameLength(name: string) {
    1 <= |name| <= 50
  }

  /** What user_profile_setname_v1 does to the active users, or the error it raises. */
  function SetNameResult(users: seq<User>, sessions: map<string, int>, token: string,
                         nameFirst: string, nameLast: string): (r: Result<seq<User>>)
    requires UniqueIds(users)
    ensures r == Err(InvalidToken) <==> token !in sessions
    ensures r == Err(NameFirstLength) <==> token in sessions && !ValidNameLength(nameFirst)
    ensures r == Err(NameLastLength) <==>
      token in sessions && ValidNameLength(nameFirst) && !ValidNameLength(nameLast)
    ensures r.Err? ==> r.error in {InvalidToken, NameFirstLength, NameLastLength, SameName}
    ensures r.Ok? ==> token in sessions && Rewritten(users, r.value, sessions[token], NewNames(nameFirst, nameLast))
    ensures (token in sessions && ValidNameLength(nameFirst) && ValidNameLength(nameLast) &&
             forall i :: 0 <= i < |users| ==> users[i].id != sessions[token]) ==> r == Ok(users)
  {
    match ValidateToken(sessions, token)
    case Err(e) => Err(e)
    case Ok(uId) =>
      if !ValidNameLength(nameFirst) then Err(NameFirstLength)
      else if !ValidNameLength(nameLast) then Err(NameLastLength)
      else
        var mine := Select(users, IdOf, uId);
        if mine != [] && mine[0].nameFirst == nameFirst && mine[0].nameLast == nameLast then Err(SameName)
        else
          var after := Rewrite(users, uId, NewNames(nameFirst, nameLast));
          assert mine == [] ==> after == users;
          Ok(after)
  }

  /** The length checks are decided before the store is looked at: the same
      error comes back whatever the users are. */
  lemma SetNameLengthChecksIgnoreStore(users1: seq<User>, users2: seq<User>, sessions: map<string, int>,
                                       token: string, nameFirst: string, nameLast: string)
    requires UniqueIds(users1) && UniqueIds(users2)
    requires !ValidNameLength(nameFirst) || !ValidNameLength(nameLast)
    ensures SetNameResult(users1, sessions, token, nameFirst, nameLast)
            == SetNameResult(users2, sessions, token, nameFirst, nameLast)
    ensures SetNameResult(users1, sessions, token, nameFirst, nameLast).Err?
  {
  }

  /** With unique ids and the caller at position `k`: the call fails iff both
      names are the current ones, and otherwise changes only that record's
      two name fields. */
  lemma SetNameCaller(users: seq<User>, sessions: map<string, int>, token: string,
                      nameFirst: string, nameLast: string, k: nat)
    requires UniqueIds(users)
    requires token in sessions && k < |users| && users[k].id == sessions[token]
    requires ValidNameLength(nameFirst) && ValidNameLength(nameLast)
    ensures var r := SetNameResult(users, sessions, token, nameFirst, nameLast);
            if users[k].nameFirst == nameFirst && users[k].nameLast == nameLast then r == Err(SameName)
            else r == Ok(users[k := users[k].(nameFirst := nameFirst, nameLast := nameLast)])
  {
    var uId := sessions[token];
    forall j | 0 <= j < k ensures users[j].id != uId {
      assert users[j].id != users[k].id;
    }
    assert FirstWithKey(users, IdOf, uId, k);
    RewriteOneRecord(users, k, NewNames(nameFirst, nameLast));
  }

  /** Changing names leaves every email and handle alone, so their uniqueness
      among active users survives. */
  lemma SetNameKeepsEmailsAndHandles(users: seq<User>, sessions: map<string, int>, token: string,
                                     nameFirst: string, nameLast: string)
    requires UniqueIds(users)
    ensures var r := SetNameResult(users, sessions, token, nameFirst, nameLast);
            r.Ok? ==>
              Project(r.value, EmailOf) == Project(users, EmailOf) &&
              Project(r.value, HandleOf) == Project(users, HandleOf) &&
              Project(r.value, IdOf) == Project(users, IdOf) &&
              UniqueIds(r.value) &&
              (DistinctEmails(users) ==> DistinctEmails(r.value)) &&
              (DistinctHandles(users) ==> DistinctHandles(r.value))
  {
    var r := SetNameResult(users, sessions, token, nameFirst, nameLast);
    if r.Ok? {
      RenameKeepsKeys(users, r.value, sessions[token], nameFirst, nameLast);
    }
  }

  /** The loop of user_profile_setname_v1: it renames the records with the
      caller's id, and stops, with nothing changed, at a record whose names
      are already the new ones.  With unique ids that can only be the first
      record with the id. */
  method RenameInPlace(s: Store, uId: int, nameFirst: string, nameLast: string) returns (same: bool)
    requires UniqueIds(s.users)
    modifies s`users
    ensures same ==> s.users == old(s.users) &&
                     exists k :: FirstWithKey(old(s.users), IdOf, uId, k) &&
                                 old(s.users)[k].nameFirst == nameFirst && old(s.users)[k].nameLast == nameLast
    ensures !same ==> Rewritten(old(s.users), s.users, uId, NewNames(nameFirst, nameLast))
    ensures !same ==> forall k :: 0 <= k < |old(s.users)| && old(s.users)[k].id == uId ==>
                        !(old(s.users)[k].nameFirst == nameFirst && old(s.users)[k].nameLast == nameLast)
  {
    ghost var before := s.users;
    var change := NewNames(nameFirst, nameLast);
    var i := 0;
    while i < |s.users|
      invariant 0 <= i <= |s.users| == |before|
      invariant forall j :: 0 <= j < |s.users| ==>
        s.users[j] == if j < i && before[j].id == uId then Apply(before[j], change) else before[j]
      invariant forall j :: 0 <= j < i && before[j].id == uId ==>
        !(before[j].nameFirst == nameFirst && before[j].nameLast == nameLast)
    {
      if s.users[i].id == uId {
        if s.users[i].nameFirst == nameFirst && s.users[i].nameLast == nameLast {
          forall j | 0 <= j < i ensures before[j].id != uId {
            assert before[j].id != before[i].id;
          }
          assert FirstWithKey(before, IdOf, uId, i);
          assert s.users == before;
          return true;
        }
        s.users := s.users[i := Apply(s.users[i], change)];
      }
      i := i + 1;
    }
    same := false;
  }

  /** user_profile_setname_v1. */
  method SetName(s: Store, token: string, nameFirst: string, nameLast: string) returns (r: Outcome)
    requires UniqueIds(s.users)
    modifies s`users
    ensures match SetNameResult(old(s.users), s.sessions, token, nameFirst, nameLast)
            case Ok(after) => r == Pass && s.users == after
            case Err(e) => r == Fail(e) && s.users == old(s.users)
  {
    var v := ValidateToken(s.sessions, token);
    if v.Err? {
      return Fail(v.error);
    }
    var uId := v.value;
    if |nameFirst| < 1 || |nameFirst| > 50 {
      return Fail(NameFirstLength);
    }
    if |nameLast| < 1 || |nameLast| > 50 {
      return Fail(NameLastLength);
    }
    ghost var before := s.users;
    var same := RenameInPlace(s, uId, nameFirst, nameLast);
    if same {
      ghost var k :| FirstWithKey(before, IdOf, uId, k) &&
                     before[k].nameFirst == nameFirst && before[k].nameLast == nameLast;
      SetNameCaller(before, s.sessions, token, nameFirst, nameLast, k);
      return Fail(SameName);
    }
    if k :| 0 <= k < |before| && before[k].id == uId {
      SetNameCaller(before, s.sessions, token, nameFirst, nameLast, k);
      RewriteOneRecord(before, k, NewNames(nameFirst, nameLast));
      RewrittenIsRewrite(before, s.users, uId, NewNames(nameFirst, nameLast));
    } else {
      assert forall i :: 0 <= i < |before| ==> s.users[i] == before[i];
    }
    r := Pass;
  }

  // ---------------------------------------------------------------------------
  // The email pattern of src/user.py:7, read with re.fullmatch:
  //   ^[A-Za-z0-9._%+-]+@[A-Za-z0-9.-]+\.[A-Z|a-z]{2,}$

  predicate IsLocalChar(c: char) {
    IsAsciiLetter(c) || IsAsciiDigit(c) || c == '.' || c == '_' || c == '%' || c == '+' || c == '-'
  }

  predicate IsDomainChar(c: char) {
    IsAsciiLetter(c) || IsAsciiDigit(c) || c == '.' || c == '-'
  }

  /** The final class [A-Z|a-z]: the bar is a literal member. */
  predicate IsTldChar(c: char) {
    IsAsciiLetter(c) || c == '|'
  }

  /** `s` matches the pattern with its '@' at `at` and the escaped dot at `dot`. */
  predicate EmailSplit(s: string, at: int, dot: int) {
    1 <= at && at + 2 <= dot && dot + 3 <= |s| &&
    s[at] == '@' && s[dot] == '.' &&
    AllChars(s[..at], IsLocalChar) &&
    AllChars(s[at + 1..dot], IsDomainChar) &&
    AllChars(s[dot + 1..], IsTldChar)
  }

  /** The whole of `s` matches the pattern for some choice of the three parts. */
  ghost predicate MatchesEmailPattern(s: string) {
    exists at, dot :: EmailSplit(s, at, dot)
  }

  /** re.fullmatch(regex, s): neither character class before the final one
      admits '@', and the final one admits no '.', so the only candidate split
      is at the first '@' and the last '.'. */
  predicate IsValidEmail(s: string): (r: bool)
    ensures r ==> MatchesEmailPattern(s)
    ensures r ==> 1 <= IndexOf(s, '@') && IndexOf(s, '@') + 2 <= LastIndexOf(s, '.') <= |s| - 3
  {
    EmailSplit(s, IndexOf(s, '@'), LastIndexOf(s, '.'))
  }

  lemma EmailCheckMatchesPattern(s: string)
    ensures IsValidEmail(s) <==> MatchesEmailPattern(s)
  {
    if MatchesEmailPattern(s) {
      var at, dot :| EmailSplit(s, at, dot);
      forall j | 0 <= j < at ensures s[j] != '@' {
        assert IsLocalChar(s[..at][j]);
      }
      forall j | dot < j < |s| ensures s[j] != '.' {
        assert IsTldChar(s[dot + 1..][j - dot - 1]);
      }
      assert IndexOf(s, '@') == at;
      assert LastIndexOf(s, '.') == dot;
    }
  }

  /** An address of the usual shape is accepted. */
  lemma EmailPatternAcceptsUsual()
    ensures IsValidEmail("0000@unsw.edu.au")
  {
    var s := "0000@unsw.edu.au";
    forall i | 0 <= i < 4 ensures IsLocalChar(s[..4][i]) {
      assert s[..4][i] == '0';
    }
    forall i | 0 <= i < 8 ensures IsDomainChar(s[5..13][i]) {
      assert i == 0 || i == 1 || i == 2 || i == 3 || i == 4 || i == 5 || i == 6 || i == 7;
      assert s[5..13][i] == s[5 + i];
    }
    forall i | 0 <= i < 2 ensures IsTldChar(s[14..][i]) {
      assert s[14..][i] == s[14 + i];
    }
    assert EmailSplit(s, 4, 13);
    EmailCheckMatchesPattern(s);
  }

  /** The bar in the final class is accepted as a top-level-domain character. */
  lemma EmailPatternAcceptsBar()
    ensures IsValidEmail("a@b.c|")
  {
    assert IndexOf("a@b.c|", '@') == 1;
    assert LastIndexOf("a@b.c|", '.') == 3;
  }

  /** A one-letter top-level domain is refused. */
  lemma EmailPatternRefusesShortTld()
    ensures !IsValidEmail("a@b.c")
  {
    assert LastIndexOf("a@b.c", '.') == 3;
  }

  /** A second '@' is refused: the domain class does not admit it. */
  lemma EmailPatternRefusesTwoAts()
    ensures !IsValidEmail("a@b@c.io")
  {
    assert IndexOf("a@b@c.io", '@') == 1;
    assert LastIndexOf("a@b@c.io", '.') == 5;
    assert "a@b@c.io"[2..5][1] == '@';
  }

  // ---------------------------------------------------------------------------
  // user_profile_setemail_v1

  /** What user_profile_setemail_v1 does to the active users, or the error it raises. */
  function SetEmailResult(users: seq<User>, sessions: map<string, int>, token: string,
                          email: string): (r: Result<seq<User>>)
    ensures r == Err(InvalidToken) <==> token !in sessions
    ensures r == Err(InvalidEmail) <==> token in sessions && !MatchesEmailPattern(email)
    ensures r == Err(NoSuchUser) <==>
      token in sessions && MatchesEmailPattern(email) &&
      forall i :: 0 <= i < |users| ==> users[i].id != sessions[token]
    ensures r.Err? ==> r.error in {InvalidToken, InvalidEmail, NoSuchUser, SameEmail, EmailInUse}
    ensures r == Err(EmailInUse) ==> exists i :: 0 <= i < |users| && users[i].email == email
    ensures r.Ok? ==> token in sessions && Rewritten(users, r.value, sessions[token], NewEmail(email))
    ensures r.Ok? ==> exists k :: 0 <= k < |users| && users[k].id == sessions[token]
    ensures r.Ok? ==> forall i :: 0 <= i < |users| ==> users[i].email != email
  {
    match ValidateToken(sessions, token)
    case Err(e) => Err(e)
    case Ok(uId) =>
      EmailCheckMatchesPattern(email);
      if !IsValidEmail(email) then Err(InvalidEmail)
      else
        var mine := Select(users, IdOf, uId);
        if mine == [] then Err(NoSuchUser)
        else if mine[0].email == email then Err(SameEmail)
        else if email in Project(users, EmailOf) then Err(EmailInUse)
        else Ok(Rewrite(users, uId, NewEmail(email)))
  }

  /** With unique ids and the caller at position `k`: the call fails iff the
      email is the caller's own or is held by another active user, and
      otherwise changes only that record's email. */
  lemma SetEmailCaller(users: seq<User>, sessions: map<string, int>, token: string, email: string, k: nat)
    requires UniqueIds(users)
    requires token in sessions && k < |users| && users[k].id == sessions[token]
    requires MatchesEmailPattern(email)
    ensures SetEmailResult(users, sessions, token, email) == Err(SameEmail) <==> users[k].email == email
    ensures SetEmailResult(users, sessions, token, email) == Err(EmailInUse) <==>
      users[k].email != email && exists i :: 0 <= i < |users| && i != k && users[i].email == email
    ensures SetEmailResult(users, sessions, token, email) == Ok(users[k := users[k].(email := email)]) <==>
      forall i :: 0 <= i < |users| ==> users[i].email != email
  {
    var uId := sessions[token];
    forall j | 0 <= j < k ensures users[j].id != uId {
      assert users[j].id != users[k].id;
    }
    assert FirstWithKey(users, IdOf, uId, k);
    EmailCheckMatchesPattern(email);
    RewriteOneRecord(users, k, NewEmail(email));
    var emails := Project(users, EmailOf);
    InProject(users, EmailOf, email);
    assert Select(users, IdOf, uId)[0] == users[k];
    assert SetEmailResult(users, sessions, token, email) ==
      if users[k].email == email then Err(SameEmail)
      else if email in emails then Err(EmailInUse)
      else Ok(Rewrite(users, uId, NewEmail(email)));
  }

  /** Giving the caller an email that no active user holds keeps active emails
      pairwise distinct and leaves ids and handles as they were. */
  lemma FreshEmailStaysDistinct(users: seq<User>, after: seq<User>, uId: int, email: string)
    requires UniqueIds(users) && DistinctEmails(users)
    requires Rewritten(users, after, uId, NewEmail(email))
    requires forall i :: 0 <= i < |users| ==> users[i].email != email
    ensures DistinctEmails(after) && UniqueIds(after)
    ensures forall i :: 0 <= i < |after| ==> after[i].id == users[i].id && after[i].handle == users[i].handle
  {
    forall i, j | 0 <= i < j < |after| ensures after[i].email != after[j].email && after[i].id != after[j].id {
      assert users[i].id != users[j].id;
      assert after[i] == if users[i].id == uId then Apply(users[i], NewEmail(email)) else users[i];
      assert after[j] == if users[j].id == uId then Apply(users[j], NewEmail(email)) else users[j];
    }
  }

  /** A successful email change keeps active emails pairwise distinct, and
      keeps every id and every handle. */
  lemma SetEmailKeepsEmailsDistinct(users: seq<User>, sessions: map<string, int>, token: string, email: string)
    requires UniqueIds(users) && DistinctEmails(users)
    ensures var r := SetEmailResult(users, sessions, token, email);
            r.Ok? ==> DistinctEmails(r.value) && UniqueIds(r.value) &&
                      (DistinctHandles(users) ==> DistinctHandles(r.value)) &&
                      forall i :: 0 <= i < |r.value| ==> r.value[i].id == users[i].id && r.value[i].handle == users[i].handle
  {
    var r := SetEmailResult(users, sessions, token, email);
    if r.Ok? {
      var uId := sessions[token];
      assert Rewritten(users, r.value, uId, NewEmail(email));
      assert forall i :: 0 <= i < |users| ==> users[i].email != email;
      FreshEmailStaysDistinct(users, r.value, uId, email);
    }
  }

  /** After a successful call, looking the caller up shows the new email. */
  lemma SetEmailThenProfile(users: seq<User>, removedUsers: seq<User>, sessions: map<string, int>,
                            token: string, email: string)
    requires UniqueIds(users)
    ensures var r := SetEmailResult(users, sessions, token, email);
            r.Ok? ==>
              var p := UserProfile(r.value, removedUsers, sessions, token, sessions[token]);
              p.Ok? && p.value.uId == sessions[token] && p.value.email == email
  {
    var r := SetEmailResult(users, sessions, token, email);
    if r.Ok? {
      assert token in sessions;
      var uId := sessions[token];
      var k :| 0 <= k < |users| && users[k].id == uId;
      RewrittenIsRewrite(users, r.value, uId, NewEmail(email));
      ProfileAfterRewrite(users, removedUsers, sessions, token, k, NewEmail(email));
    }
  }

  /** user_profile_setemail_v1. */
  method SetEmail(s: Store, token: string, email: string) returns (r: Outcome)
    modifies s`users
    ensures match SetEmailResult(old(s.users), s.sessions, token, email)
            case Ok(after) => r == Pass && s.users == after
            case Err(e) => r == Fail(e) && s.users == old(s.users)
  {
    var v := ValidateToken(s.sessions, token);
    if v.Err? {
      return Fail(v.error);
    }
    var uId := v.value;
    if !IsValidEmail(email) {
      return Fail(InvalidEmail);
    }
    var mine := Select(s.users, IdOf, uId);
    if mine == [] {
      return Fail(NoSuchUser);
    }
    if mine[0].email == email {
      return Fail(SameEmail);
    }
    var emailList := Project(s.users, EmailOf);
    if email in emailList {
      return Fail(EmailInUse);
    }
    ghost var before := s.users;
    RewriteInPlace(s, uId, NewEmail(email));
    RewrittenIsRewrite(before, s.users, uId, NewEmail(email));
    r := Pass;
  }

  // ---------------------------------------------------------------------------
  // user_profile_sethandle_v1

  predicate ValidHandleLength(handle: string) {
    3 <= |handle| <= 20
  }

  /** What user_profile_sethandle_v1 does to the active users, or the error it raises. */
  function SetHandleResult(users: seq<User>, sessions: map<string, int>, token: string,
                           handle: string): (r: Result<seq<User>>)
    ensures r == Err(InvalidToken) <==> token !in sessions
    ensures r == Err(HandleLength) <==> token in sessions && !ValidHandleLength(handle)
    ensures r == Err(HandleNotAlnum) <==> token in sessions && ValidHandleLength(handle) && !IsAlnum(handle)
    ensures r == Err(NoSuchUser) <==>
      token in sessions && ValidHandleLength(handle) && IsAlnum(handle) &&
      forall i :: 0 <= i < |users| ==> users[i].id != sessions[token]
    ensures r.Err? ==> r.error in {InvalidToken, HandleLength, HandleNotAlnum, NoSuchUser, SameHandle, HandleInUse}
    ensures r == Err(HandleInUse) ==> exists i :: 0 <= i < |users| && users[i].handle == handle
    ensures r.Ok? ==> token in sessions && Rewritten(users, r.value, sessions[token], NewHandle(handle))
    ensures r.Ok? ==> exists k :: 0 <= k < |users| && users[k].id == sessions[token]
    ensures r.Ok? ==> forall i :: 0 <= i < |users| ==> users[i].handle != handle
  {
    match ValidateToken(sessions, token)
    case Err(e) => Err(e)
    case Ok(uId) =>
      if |handle| < 3 || |handle| > 20 then Err(HandleLength)
      else if !IsAlnum(handle) then Err(HandleNotAlnum)
      else
        var mine := Select(users, IdOf, uId);
        if mine == [] then Err(NoSuchUser)
        else if mine[0].handle == handle then Err(SameHandle)
        else if handle in Project(users, HandleOf) then Err(HandleInUse)
        else Ok(Rewrite(users, uId, NewHandle(handle)))
  }

  /** With unique ids and the caller at position `k`: the call fails iff the
      handle is the caller's own or is held by another active user, and
      otherwise changes only that record's handle. */
  lemma SetHandleCaller(users: seq<User>, sessions: map<string, int>, token: string, handle: string, k: nat)
    requires UniqueIds(users)
    requires token in sessions && k < |users| && users[k].id == sessions[token]
    requires ValidHandleLength(handle) && IsAlnum(handle)
    ensures SetHandleResult(users, sessions, token, handle) == Err(SameHandle) <==> users[k].handle == handle
    ensures SetHandleResult(users, sessions, token, handle) == Err(HandleInUse) <==>
      users[k].handle != handle && exists i :: 0 <= i < |users| && i != k && users[i].handle == handle
    ensures SetHandleResult(users, sessions, token, handle) == Ok(users[k := users[k].(handle := handle)]) <==>
      forall i :: 0 <= i < |users| ==> users[i].handle != handle
  {
    var uId := sessions[token];
    forall j | 0 <= j < k ensures users[j].id != uId {
      assert users[j].id != users[k].id;
    }
    assert FirstWithKey(users, IdOf, uId, k);
    RewriteOneRecord(users, k, NewHandle(handle));
    var handles := Project(users, HandleOf);
    InProject(users, HandleOf, handle);
    assert Select(users, IdOf, uId)[0] == users[k];
    assert SetHandleResult(users, sessions, token, handle) ==
      if users[k].handle == handle then Err(SameHandle)
      else if handle in handles then Err(HandleInUse)
      else Ok(Rewrite(users, uId, NewHandle(handle)));
  }

  /** Giving the caller a handle that no active user holds keeps active handles
      pairwise distinct and leaves ids and emails as they were. */
  lemma FreshHandleStaysDistinct(users: seq<User>, after: seq<User>, uId: int, handle: string)
    requires UniqueIds(users) && DistinctHandles(users)
    requires Rewritten(users, after, uId, NewHandle(handle))
    requires forall i :: 0 <= i < |users| ==> users[i].handle != handle
    ensures DistinctHandles(after) && UniqueIds(after)
    ensures forall i :: 0 <= i < |after| ==> after[i].id == users[i].id && after[i].email == users[i].email
  {
    forall i, j | 0 <= i < j < |after| ensures after[i].handle != after[j].handle && after[i].id != after[j].id {
      assert users[i].id != users[j].id;
      assert after[i] == if users[i].id == uId then Apply(users[i], NewHandle(handle)) else users[i];
      assert after[j] == if users[j].id == uId then Apply(users[j], NewHandle(handle)) else users[j];
    }
  }

  /** A successful handle change keeps active handles pairwise distinct, and
      keeps every id and every email. */
  lemma SetHandleKeepsHandlesDistinct(users: seq<User>, sessions: map<string, int>, token: string, handle: string)
    requires UniqueIds(users) && DistinctHandles(users)
    ensures var r := SetHandleResult(users, sessions, token, handle);
            r.Ok? ==> DistinctHandles(r.value) && UniqueIds(r.value) &&
                      (DistinctEmails(users) ==> DistinctEmails(r.value)) &&
                      forall i :: 0 <= i < |r.value| ==> r.value[i].id == users[i].id && r.value[i].email == users[i].email
  {
    var r := SetHandleResult(users, sessions, token, handle);
    if r.Ok? {
      var uId := sessions[token];
      assert Rewritten(users, r.value, uId, NewHandle(handle));
      assert forall i :: 0 <= i < |users| ==> users[i].handle != handle;
      FreshHandleStaysDistinct(users, r.value, uId, handle);
    }
  }

  /** After a successful call, looking the caller up shows the new handle. */
  lemma SetHandleThenProfile(users: seq<User>, removedUsers: seq<User>, sessions: map<string, int>,
                            token: string, handle: string)
    requires UniqueIds(users)
    ensures var r := SetHandleResult(users, sessions, token, handle);
            r.Ok? ==>
              var p := UserProfile(r.value, removedUsers, sessions, token, sessions[token]);
              p.Ok? && p.value.uId == sessions[token] && p.value.handle == handle
  {
    var r := SetHandleResult(users, sessions, token, handle);
    if r.Ok? {
      assert token in sessions;
      var uId := sessions[token];
      var k :| 0 <= k < |users| && users[k].id == uId;
      RewrittenIsRewrite(users, r.value, uId, NewHandle(handle));
      ProfileAfterRewrite(users, removedUsers, sessions, token, k, NewHandle(handle));
    }
  }

  /** user_profile_sethandle_v1. */
  method SetHandle(s: Store, token: string, handle: string) returns (r: Outcome)
    modifies s`users
    ensures match SetHandleResult(old(s.users), s.sessions, token, handle)
            case Ok(after) => r == Pass && s.users == after
            case Err(e) => r == Fail(e) && s.users == old(s.users)
  {
    var v := ValidateToken(s.sessions, token);
    if v.Err? {
      return Fail(v.error);
    }
    var uId := v.value;
    if |handle| < 3 || |handle| > 20 {
      return Fail(HandleLength);
    }
    if !IsAlnum(handle) {
      return Fail(HandleNotAlnum);
    }
    var mine := Select(s.users, IdOf, uId);
    if mine == [] {
      return Fail(NoSuchUser);
    }
    if mine[0].handle == handle {
      return Fail(SameHandle);
    }
    var handleList := Project(s.users, HandleOf);
    if handle in handleList {
      return Fail(HandleInUse);
    }
    ghost var before := s.users;
    RewriteInPlace(s, uId, NewHandle(handle));
    RewrittenIsRewrite(before, s.users, uId, NewHandle(handle));
    r := Pass;
  }

  // ---------------------------------------------------------------------------
  // user_profile_uploadphoto_v1, up to the download

  /** The argument checks, which run before the token is validated; on
      success, the caller's id, with which the download would proceed. */
  function UploadPhotoChecks(sessions: map<string, int>, token: string, imgUrl: string,
                             xStart: int, yStart: int, xEnd: int, yEnd: int): (r: Result<int>)
    ensures r.Ok? <==>
      EndsWith(imgUrl, ".jpg") && xStart <= xEnd && yStart <= yEnd && 0 <= xStart && 0 <= yStart &&
      token in sessions
    ensures r.Ok? ==> r.value == sessions[token]
    ensures r == Err(InvalidToken) ==>
      EndsWith(imgUrl, ".jpg") && xStart <= xEnd && yStart <= yEnd && 0 <= xStart && 0 <= yStart
  {
    if !EndsWith(imgUrl, ".jpg") then Err(NotJpg)
    else if xEnd < xStart then Err(XEndBeforeStart)
    else if yEnd < yStart then Err(YEndBeforeStart)
    else if xStart < 0 || yStart < 0 then Err(OutsideImage)
    else ValidateToken(sessions, token)
  }

  /** A bad argument is reported as an InputError whatever the token: the
      session table plays no part in it. */
  lemma UploadPhotoArgumentsBeforeToken(sessions1: map<string, int>, sessions2: map<string, int>,
                                       token1: string, token2: string, imgUrl: string,
                                       xStart: int, yStart: int, xEnd: int, yEnd: int)
    requires !(EndsWith(imgUrl, ".jpg") && xStart <= xEnd && yStart <= yEnd && 0 <= xStart && 0 <= yStart)
    ensures var r := UploadPhotoChecks(sessions1, token1, imgUrl, xStart, yStart, xEnd, yEnd);
            r == UploadPhotoChecks(sessions2, token2, imgUrl, xStart, yStart, xEnd, yEnd) &&
            r.Err? && r.error.Kind() == InputError
  {
  }
}

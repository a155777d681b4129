/**
  The document store as the membership core sees it: User documents keyed by
  a store-assigned id, and ReservationForUniqueFieldValue markers, which have
  no content beyond their key ("username/<name>" or "email/<address>").
  A session stages stores and deletes and commits them all at once with
  SaveChanges; under optimistic concurrency a commit that would create a
  reservation whose key already exists fails as a whole.
*/
module Documents {
  import opened Common

  type Id = nat

  /** The persisted User record. */
  datatype User = User(
    username: string,
    email: string,
    passwordHash: Hash,
    passwordSalt: Salt,
    applicationName: string,
    dateCreated: Time,
    dateLastLogin: Option<Time>)

  /** The committed contents of the store. */
  datatype Store = Store(users: map<Id, User>, reservations: set<string>)

  function UsernameKey(username: string): string { "username/" + username }

  function EmailKey(email: string): string { "email/" + email }

  // ---------------------------------------------------------------------
  // The reservation invariant

  /** Every key some stored user claims. */
  ghost function ClaimedKeys(users: map<Id, User>): set<string> {
    (set id | id in users :: UsernameKey(users[id].username)) +
    (set id | id in users :: EmailKey(users[id].email))
  }

  /** No two users share a username or an email (the keys are global, across applications). */
  ghost predicate DistinctClaims(users: map<Id, User>) {
    forall i, j | i in users && j in users && i != j ::
      users[i].username != users[j].username && users[i].email != users[j].email
  }

  /**
    The central invariant: a reservation exists exactly for the username and
    the email of each stored user, and no two users claim the same value.
  */
  ghost predicate Consistent(s: Store) {
    s.reservations == ClaimedKeys(s.users) && DistinctClaims(s.users)
  }

  lemma ClaimsOf(users: map<Id, User>, id: Id)
    requires id in users
    ensures UsernameKey(users[id].username) in ClaimedKeys(users)
    ensures EmailKey(users[id].email) in ClaimedKeys(users)
  {
  }

  lemma UsernameKeyInjective(a: string, b: string)
    ensures UsernameKey(a) == UsernameKey(b) ==> a == b
  {
    if UsernameKey(a) == UsernameKey(b) {
      assert a == UsernameKey(a)[9..] && b == UsernameKey(b)[9..];
    }
  }

  lemma EmailKeyInjective(a: string, b: string)
    ensures EmailKey(a) == EmailKey(b) ==> a == b
  {
    if EmailKey(a) == EmailKey(b) {
      assert a == EmailKey(a)[6..] && b == EmailKey(b)[6..];
    }
  }

  lemma KeyKindsDiffer(a: string, b: string)
    ensures UsernameKey(a) != EmailKey(b)
  {
    assert UsernameKey(a)[0] == 'u' && EmailKey(b)[0] == 'e';
  }

  /** In a consistent store, a user's two keys are claimed by that user alone. */
  lemma KeysOwnedByOneUser(s: Store, id: Id, other: Id)
    requires Consistent(s) && id in s.users && other in s.users && other != id
    ensures UsernameKey(s.users[other].username) != UsernameKey(s.users[id].username)
    ensures UsernameKey(s.users[other].username) != EmailKey(s.users[id].email)
    ensures EmailKey(s.users[other].email) != UsernameKey(s.users[id].username)
    ensures EmailKey(s.users[other].email) != EmailKey(s.users[id].email)
  {
    var u, v := s.users[id], s.users[other];
    UsernameKeyInjective(v.username, u.username);
    EmailKeyInjective(v.email, u.email);
    KeyKindsDiffer(v.username, u.email);
    KeyKindsDiffer(u.username, v.email);
  }

  /** Adding a user whose two keys are free, together with those keys, keeps the invariant. */
  lemma {:induction false} AddUserKeepsConsistent(s: Store, id: Id, u: User)
    requires Consistent(s) && id !in s.users
    requires UsernameKey(u.username) !in s.reservations && EmailKey(u.email) !in s.reservations
    ensures Consistent(Store(s.users[id := u], s.reservations + {UsernameKey(u.username), EmailKey(u.email)}))
  {
    var users := s.users[id := u];
    var after := s.reservations + {UsernameKey(u.username), EmailKey(u.email)};
    forall k | k in ClaimedKeys(users) ensures k in after {
      var j :| j in users && (k == UsernameKey(users[j].username) || k == EmailKey(users[j].email));
      if j != id {
        ClaimsOf(s.users, j);
      }
    }
    forall k | k in after ensures k in ClaimedKeys(users) {
      if k in s.reservations {
        var j :| j in s.users && (k == UsernameKey(s.users[j].username) || k == EmailKey(s.users[j].email));
        ClaimsOf(users, j);
      } else {
        ClaimsOf(users, id);
      }
    }
    forall i, j | i in users && j in users && i != j
      ensures users[i].username != users[j].username && users[i].email != users[j].email
    {
      if i == id || j == id {
        ClaimsOf(s.users, if i == id then j else i);
      }
    }
  }

  /** After a removal, every claimed key is an old reservation other than the removed user's two. */
  lemma {:induction false} RemoveUserClaimsWithin(s: Store, id: Id)
    requires Consistent(s) && id in s.users
    ensures ClaimedKeys(s.users - {id})
         <= s.reservations - {UsernameKey(s.users[id].username), EmailKey(s.users[id].email)}
  {
    var users := s.users - {id};
    forall k | k in ClaimedKeys(users)
      ensures k in s.reservations - {UsernameKey(s.users[id].username), EmailKey(s.users[id].email)}
    {
      var j :| j in users && (k == UsernameKey(users[j].username) || k == EmailKey(users[j].email));
      assert users[j] == s.users[j];
      KeysOwnedByOneUser(s, id, j);
      ClaimsOf(s.users, j);
      assert k in ClaimedKeys(s.users);
    }
  }

  /** After a removal, every old reservation other than the removed user's two is still claimed. */
  lemma {:induction false} RemoveUserClaimsCover(s: Store, id: Id)
    requires Consistent(s) && id in s.users
    ensures s.reservations - {UsernameKey(s.users[id].username), EmailKey(s.users[id].email)}
         <= ClaimedKeys(s.users - {id})
  {
    var users := s.users - {id};
    forall k | k in s.reservations - {UsernameKey(s.users[id].username), EmailKey(s.users[id].email)}
      ensures k in ClaimedKeys(users)
    {
      var j :| j in s.users && (k == UsernameKey(s.users[j].username) || k == EmailKey(s.users[j].email));
      assert j != id;
      ClaimsOf(users, j);
    }
  }

  /** Removing a user together with both of its keys keeps the invariant. */
  lemma {:induction false} RemoveUserKeepsConsistent(s: Store, id: Id)
    requires Consistent(s) && id in s.users
    ensures Consistent(Store(s.users - {id},
      s.reservations - {UsernameKey(s.users[id].username), EmailKey(s.users[id].email)}))
  {
    RemoveUserClaimsWithin(s, id);
    RemoveUserClaimsCover(s, id);
  }

  /** Rewriting a user's record without changing its username or email keeps the invariant. */
  lemma {:induction false} ReplaceUserKeepsConsistent(s: Store, id: Id, u: User)
    requires Consistent(s) && id in s.users
    requires u.username == s.users[id].username && u.email == s.users[id].email
    ensures Consistent(Store(s.users[id := u], s.reservations))
  {
    var users := s.users[id := u];
    forall k | k in ClaimedKeys(users) ensures k in ClaimedKeys(s.users) {
      var j :| j in users && (k == UsernameKey(users[j].username) || k == EmailKey(users[j].email));
      ClaimsOf(s.users, j);
    }
    forall k | k in ClaimedKeys(s.users) ensures k in ClaimedKeys(users) {
      var j :| j in s.users && (k == UsernameKey(s.users[j].username) || k == EmailKey(s.users[j].email));
      ClaimsOf(users, j);
    }
  }

  /** After an email change, every claimed key is an old reservation other than the old email, or the new email. */
  lemma {:induction false} ChangeEmailClaimsWithin(s: Store, id: Id, u: User)
    requires Consistent(s) && id in s.users
    requires u.username == s.users[id].username
    ensures ClaimedKeys(s.users[id := u]) <= (s.reservations - {EmailKey(s.users[id].email)}) + {EmailKey(u.email)}
  {
    var was := s.users[id];
    var users := s.users[id := u];
    forall k | k in ClaimedKeys(users)
      ensures k in (s.reservations - {EmailKey(was.email)}) + {EmailKey(u.email)}
    {
      var j :| j in users && (k == UsernameKey(users[j].username) || k == EmailKey(users[j].email));
      if j != id {
        KeysOwnedByOneUser(s, id, j);
        ClaimsOf(s.users, j);
      } else if k == UsernameKey(u.username) {
        KeyKindsDiffer(u.username, was.email);
        ClaimsOf(s.users, id);
      }
    }
  }

  /** After an email change, the new email and every other old reservation are claimed. */
  lemma {:induction false} ChangeEmailClaimsCover(s: Store, id: Id, u: User)
    requires Consistent(s) && id in s.users
    requires u.username == s.users[id].username
    ensures (s.reservations - {EmailKey(s.users[id].email)}) + {EmailKey(u.email)} <= ClaimedKeys(s.users[id := u])
  {
    var users := s.users[id := u];
    forall k | k in (s.reservations - {EmailKey(s.users[id].email)}) + {EmailKey(u.email)}
      ensures k in ClaimedKeys(users)
    {
      if k == EmailKey(u.email) {
        ClaimsOf(users, id);
      } else {
        var j :| j in s.users && (k == UsernameKey(s.users[j].username) || k == EmailKey(s.users[j].email));
        ClaimsOf(users, j);
      }
    }
  }

  /** A user moved to an email no reservation holds still shares no value with another user. */
  lemma {:induction false} ChangeEmailDistinct(s: Store, id: Id, u: User)
    requires Consistent(s) && id in s.users
    requires u.username == s.users[id].username
    requires EmailKey(u.email) !in s.reservations
    ensures DistinctClaims(s.users[id := u])
  {
    var users := s.users[id := u];
    forall i, j | i in users && j in users && i != j
      ensures users[i].username != users[j].username && users[i].email != users[j].email
    {
      if i == id || j == id {
        ClaimsOf(s.users, if i == id then j else i);
      }
    }
  }

  /**
    Moving a user to a free email, releasing the old email reservation and
    taking the new one, keeps the invariant.
  */
  lemma {:induction false} ChangeEmailKeepsConsistent(s: Store, id: Id, u: User)
    requires Consistent(s) && id in s.users
    requires u.username == s.users[id].username && u.email != s.users[id].email
    requires EmailKey(u.email) !in s.reservations
    ensures Consistent(Store(s.users[id := u],
      (s.reservations - {EmailKey(s.users[id].email)}) + {EmailKey(u.email)}))
  {
    ChangeEmailClaimsWithin(s, id, u);
    ChangeEmailClaimsCover(s, id, u);
    ChangeEmailDistinct(s, id, u);
  }

  // ---------------------------------------------------------------------
  // Staged changes and the commit

  /**
    What a session has staged: users stored or modified, users deleted,
    reservations to create (in the order Store was called) and reservations
    to delete.
  */
  datatype Changes = Changes(
    puts: map<Id, User>,
    deletes: set<Id>,
    newKeys: seq<string>,
    deletedKeys: set<string>)

  const NoChanges: Changes := Changes(map[], {}, [], {})

  /** The changes of `a` followed by those of `b`, in one unit of work. */
  function Merge(a: Changes, b: Changes): Changes {
    Changes(a.puts + b.puts, a.deletes + b.deletes, a.newKeys + b.newKeys, a.deletedKeys + b.deletedKeys)
  }

  lemma MergeNoChanges(a: Changes)
    ensures Merge(a, NoChanges) == a && Merge(NoChanges, a) == a
  {
    assert a.newKeys + [] == a.newKeys;
  }

  /** The store after every staged change has been written. */
  function Apply(s: Store, c: Changes): Store {
    Store((s.users + c.puts) - c.deletes,
          (s.reservations - c.deletedKeys) + (set k | k in c.newKeys))
  }

  /** The message of the ConcurrencyException raised for a PUT on an existing document. */
  function ConflictMessage(key: string): string {
    "PUT attempted on document '" + key + "' using a non current etag"
  }

  lemma ConflictMessageNamesKey(key: string)
    ensures Contains(ConflictMessage(key), key)
  {
    var prefix := "PUT attempted on document '";
    assert ConflictMessage(key)[|prefix|..|prefix| + |key|] == key;
    assert OccursAt(ConflictMessage(key), key, |prefix|);
  }

  /** The first of `keys` that is already reserved. */
  function FirstReserved(keys: seq<string>, reserved: set<string>): (r: Option<string>)
    ensures r.None? <==> forall k :: k in keys ==> k !in reserved
    ensures r.Some? ==> r.value in keys && r.value in reserved
    ensures r.Some? ==> exists i :: 0 <= i < |keys| && keys[i] == r.value &&
                                    forall j :: 0 <= j < i ==> keys[j] !in reserved
    ensures keys != [] && keys[0] in reserved ==> r == Some(keys[0])
  {
    if keys == [] then None
    else if keys[0] in reserved then Some(keys[0])
    else FirstReserved(keys[1..], reserved)
  }

  /**
    SaveChanges: either every staged change is written, or, under optimistic
    concurrency, nothing is and a ConcurrencyException names an
    already-existing reservation the session asked to create (the first one).
  */
  function Commit(s: Store, c: Changes, optimistic: bool): (r: Result<Store>)
    ensures r.Ok? <==> !optimistic || forall k :: k in c.newKeys ==> k !in s.reservations
    ensures r.Ok? ==> r.value == Apply(s, c)
    ensures r.Err? ==> exists i :: 0 <= i < |c.newKeys| && c.newKeys[i] in s.reservations &&
                                   (forall j :: 0 <= j < i ==> c.newKeys[j] !in s.reservations) &&
                                   r.error == ConcurrencyException(ConflictMessage(c.newKeys[i]))
  {
    if !optimistic then Ok(Apply(s, c))
    else match FirstReserved(c.newKeys, s.reservations)
      case None => Ok(Apply(s, c))
      case Some(k) => Err(ConcurrencyException(ConflictMessage(k)))
  }

  // ---------------------------------------------------------------------
  // Queries

  /** Strictly increasing, hence without repetitions. */
  predicate Increasing(ids: seq<Id>) {
    forall i, j :: 0 <= i < j < |ids| ==> ids[i] < ids[j]
  }

  /** `m` is the smallest of `ids`. */
  predicate IsLeast(m: Id, ids: set<Id>) {
    m in ids && forall x :: x in ids ==> m <= x
  }

  lemma {:induction false} LeastExists(ids: set<Id>)
    requires ids != {}
    ensures exists m :: IsLeast(m, ids)
  {
    var y :| y in ids;
    var rest := ids - {y};
    if rest == {} {
      assert ids == {y};
      assert IsLeast(y, ids);
    } else {
      LeastExists(rest);
      var m :| IsLeast(m, rest);
      assert ids == rest + {y};
      if y < m {
        assert IsLeast(y, ids);
      } else {
        assert IsLeast(m, ids);
      }
    }
  }

  function Least(ids: set<Id>): (m: Id)
    requires ids != {}
    ensures m in ids && forall x :: x in ids ==> m <= x
  {
    LeastExists(ids);
    var m :| IsLeast(m, ids); m
  }

  /** The ids, in the order queries return documents: ascending. */
  function SortedIds(ids: set<Id>): (r: seq<Id>)
    ensures forall x :: x in r <==> x in ids
    ensures Increasing(r)
    decreases |ids|
  {
    if ids == {} then []
    else
      var m := Least(ids);
      var rest := SortedIds(ids - {m});
      assert forall x :: x in rest ==> m < x;
      [m] + rest
  }

  /** Keeping the head of an increasing sequence in front of a selection from its tail keeps it increasing. */
  lemma HeadBelowTail(ids: seq<Id>, rest: seq<Id>)
    requires ids != [] && forall x :: x in rest ==> x in ids[1..]
    ensures Increasing(ids) ==> Increasing(ids[1..])
    ensures Increasing(ids) && Increasing(rest) ==> Increasing([ids[0]] + rest)
  {
    if Increasing(ids) && Increasing(rest) {
      forall x | x in rest ensures ids[0] < x {
        var i :| 0 <= i < |ids[1..]| && ids[1..][i] == x;
        assert ids[i + 1] == x;
      }
      forall i, j | 0 <= i < j < |[ids[0]] + rest| ensures ([ids[0]] + rest)[i] < ([ids[0]] + rest)[j] {
        assert ([ids[0]] + rest)[j] == rest[j - 1] && rest[j - 1] in rest;
      }
    }
  }

  /** The ids of `ids`, in order, whose user satisfies `p`. */
  function Select(users: map<Id, User>, ids: seq<Id>, p: User -> bool): (r: seq<Id>)
    requires forall x :: x in ids ==> x in users
    ensures forall x :: x in r <==> x in ids && p(users[x])
    ensures Increasing(ids) ==> Increasing(r)
  {
    if ids == [] then []
    else
      var rest := Select(users, ids[1..], p);
      HeadBelowTail(ids, rest);
      if p(users[ids[0]]) then [ids[0]] + rest else rest
  }

  /** A query over the User documents: the matching ids, in ascending order. */
  function Query(s: Store, p: User -> bool): (r: seq<Id>)
    ensures forall x :: x in r <==> x in s.users && p(s.users[x])
    ensures Increasing(r)
  {
    Select(s.users, SortedIds(s.users.Keys), p)
  }

  /** `from u in Query<User>() where u.Username == username && u.ApplicationName == app`. */
  function Named(s: Store, username: string, app: string): (r: seq<Id>)
    ensures forall x :: x in r <==> x in s.users && s.users[x].username == username &&
                                    s.users[x].applicationName == app
    ensures Increasing(r)
  {
    Query(s, (u: User) => u.username == username && u.applicationName == app)
  }

  lemma FirstTwo(r: seq<Id>)
    requires Increasing(r) && |r| > 1
    ensures r[0] in r && r[1] in r && r[0] != r[1]
  {
  }

  /** A query that matches exactly one user returns exactly that user. */
  lemma SingleMatch(r: seq<Id>, id: Id)
    requires Increasing(r) && id in r
    requires forall x :: x in r ==> x == id
    ensures r == [id]
  {
    if |r| > 1 {
      FirstTwo(r);
      assert false;
    }
  }

  /** In a store whose claims are distinct, a username query finds at most one user. */
  lemma NamedAtMostOne(s: Store, username: string, app: string)
    requires DistinctClaims(s.users)
    ensures |Named(s, username, app)| <= 1
  {
    var r := Named(s, username, app);
    if |r| > 1 {
      FirstTwo(r);
      assert false;
    }
  }

  /** Enumerable.SingleOrDefault: no element, the only element, or an exception. */
  function SingleOrDefault(ids: seq<Id>): (r: Result<Option<Id>>)
    ensures r == Ok(None) <==> ids == []
    ensures r.Ok? && r.value.Some? <==> |ids| == 1
    ensures |ids| == 1 ==> r == Ok(Some(ids[0]))
    ensures r.Err? <==> |ids| > 1
    ensures |ids| > 1 ==> r == Err(InvalidOperationException)
  {
    if |ids| == 0 then Ok(None)
    else if |ids| == 1 then Ok(Some(ids[0]))
    else Err(InvalidOperationException)
  }

  // ---------------------------------------------------------------------
  // The document store and its sessions

  /** The shared document store: its committed state and its HiLo id generator. */
  class DocumentStore {
    var state: Store
    /** The next id the generator hands out; ids are never reused. */
    var nextId: Id

    ghost predicate Valid()
      reads this
    {
      forall id :: id in state.users ==> id < nextId
    }

    constructor ()
      ensures Valid() && state == Store(map[], {}) && nextId == 0
    {
      state := Store(map[], {});
      nextId := 0;
    }
  }

  /** One unit of work against the store (IDocumentSession). */
  class DocumentSession {
    const store: DocumentStore
    var optimistic: bool
    var pending: Changes

    ghost predicate Valid()
      reads this, store
    {
      store.Valid() && forall id :: id in pending.puts ==> id < store.nextId
    }

    /** DocumentStore.OpenSession. */
    constructor (store: DocumentStore)
      requires store.Valid()
      ensures this.store == store && !optimistic && pending == NoChanges && Valid()
    {
      this.store := store;
      optimistic := false;
      pending := NoChanges;
    }

    /** session.Store(user) for a new user: the generator assigns its id. */
    method StoreUser(user: User) returns (id: Id)
      requires Valid()
      modifies this`pending, store`nextId
      ensures Valid()
      ensures id == old(store.nextId) && id !in store.state.users && store.nextId == id + 1
      ensures pending == old(pending).(puts := old(pending).puts[id := user])
    {
      id := store.nextId;
      store.nextId := store.nextId + 1;
      pending := pending.(puts := pending.puts[id := user]);
    }

    /** A user loaded through this session was changed; SaveChanges writes it back. */
    method Put(id: Id, user: User)
      requires Valid() && id in store.state.users
      modifies this`pending
      ensures Valid()
      ensures pending == old(pending).(puts := old(pending).puts[id := user])
    {
      pending := pending.(puts := pending.puts[id := user]);
    }

    /** session.Delete(user). */
    method Delete(id: Id)
      modifies this`pending
      ensures pending == old(pending).(deletes := old(pending).deletes + {id})
    {
      pending := pending.(deletes := pending.deletes + {id});
    }

    /** session.Store(new ReservationForUniqueFieldValue { Id = key }). */
    method StoreReservation(key: string)
      modifies this`pending
      ensures pending == old(pending).(newKeys := old(pending).newKeys + [key])
    {
      pending := pending.(newKeys := pending.newKeys + [key]);
    }

    /**
      session.Delete(session.Load<ReservationForUniqueFieldValue>(key)): Load
      gives null for a missing document, and Delete(null) throws.
    */
    method DeleteReservation(key: string) returns (r: Result<()>)
      modifies this`pending
      ensures key in store.state.reservations ==>
        r == Ok(()) && pending == old(pending).(deletedKeys := old(pending).deletedKeys + {key})
      ensures key !in store.state.reservations ==>
        r == Err(ArgumentNullException("entity")) && pending == old(pending)
    {
      if key in store.state.reservations {
        pending := pending.(deletedKeys := pending.deletedKeys + {key});
        r := Ok(());
      } else {
        r := Err(ArgumentNullException("entity"));
      }
    }

    /** session.SaveChanges(): all staged changes, or none of them. */
    method SaveChanges() returns (r: Result<()>)
      requires Valid()
      modifies store`state
      ensures Valid()
      ensures var c := Commit(old(store.state), pending, optimistic);
              (c.Ok? ==> r == Ok(()) && store.state == c.value) &&
              (c.Err? ==> r == Err(c.error) && store.state == old(store.state))
    {
      var c := Commit(store.state, pending, optimistic);
      if c.Ok? {
        store.state := c.value;
        r := Ok(());
      } else {
        r := Err(c.error);
      }
    }
  }
}

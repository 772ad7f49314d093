/** `MemStorage`: three insertion-ordered id -> record maps, each with its own
    id counter. The asynchronous interface is modelled synchronously: every
    operation is a pure function from the old store to the new store and the
    value the promise resolves to. The session store it also owns is not
    modelled. */
module Storage {
  import opened Util
  import opened Schema
  import opened OrderedMap

  datatype MemStorage = MemStorage(
    users: Entries<User>,
    analyses: Entries<Analysis>,
    contactRequests: Entries<ContactRequest>,
    currentId: int,
    currentAnalysisId: int,
    currentContactRequestId: int)

  /** What a `create*` call leaves behind: the new store and the record. */
  datatype Created<R> = Created(store: MemStorage, record: R)

  /** What `updateContactRequest` leaves behind. */
  datatype Updated = Updated(store: MemStorage, record: Option<ContactRequest>)

  // ----- the store invariant -----

  /** One collection: keys increase in insertion order, lie in
      [1, counter), so every key ever handed out is below the counter. */
  predicate TableValid<V>(m: Entries<V>, counter: int) {
    1 <= counter && IncreasingKeys(m) && KeysInRange(m, 1, counter)
  }

  predicate UserKeysMatch(m: Entries<User>) {
    forall i :: 0 <= i < |m| ==> m[i].1.id == m[i].0
  }

  predicate AnalysisKeysMatch(m: Entries<Analysis>) {
    forall i :: 0 <= i < |m| ==> m[i].1.id == m[i].0
  }

  predicate ContactKeysMatch(m: Entries<ContactRequest>) {
    forall i :: 0 <= i < |m| ==> m[i].1.id == m[i].0
  }

  predicate UsersValid(m: Entries<User>, counter: int) {
    TableValid(m, counter) && UserKeysMatch(m)
  }

  predicate AnalysesValid(m: Entries<Analysis>, counter: int) {
    TableValid(m, counter) && AnalysisKeysMatch(m)
  }

  predicate ContactsValid(m: Entries<ContactRequest>, counter: int) {
    TableValid(m, counter) && ContactKeysMatch(m)
  }

  /** Every key is below its collection's counter and equals the record's
      `id`; ids are unique and increase in insertion order. */
  predicate Valid(s: MemStorage) {
    && UsersValid(s.users, s.currentId)
    && AnalysesValid(s.analyses, s.currentAnalysisId)
    && ContactsValid(s.contactRequests, s.currentContactRequestId)
  }

  // ----- constructor -----

  /** `new MemStorage()`. */
  function NewMemStorage(): (s: MemStorage)
    ensures Valid(s)
    ensures s.currentId == 1 && s.currentAnalysisId == 1 && s.currentContactRequestId == 1
    ensures forall id :: GetUser(s, id).None? && GetAnalysisById(s, id).None?
    ensures forall name :: GetUserByUsername(s, name).None?
    ensures forall uid :: GetAnalysesByUserId(s, uid) == []
    ensures GetContactRequests(s) == []
  {
    MemStorage([], [], [], 1, 1, 1)
  }

  // ----- users -----

  /** `getUser(id)`: whatever is stored under `id`. */
  function GetUser(s: MemStorage, id: int): (r: Option<User>)
    ensures r.Some? <==> HasKey(s.users, id)
    ensures r.Some? ==> exists i :: 0 <= i < |s.users| && s.users[i] == (id, r.value)
  {
    Get(s.users, id)
  }

  function HasUsername(name: string): User -> bool {
    (u: User) => u.username == name
  }

  /** `getUserByUsername(name)`: the earliest-inserted user with that name. */
  function GetUserByUsername(s: MemStorage, name: string): (r: Option<User>)
    ensures r.None? <==> forall i :: 0 <= i < |s.users| ==> s.users[i].1.username != name
    ensures r.Some? ==>
      exists i :: 0 <= i < |s.users| && s.users[i].1 == r.value && r.value.username == name
                  && forall j :: 0 <= j < i ==> s.users[j].1.username != name
  {
    Find(Values(s.users), HasUsername(name))
  }

  /** `createUser(ins)`: stores `ins` plus the next user id; never checks
      whether the username is already taken. */
  function CreateUser(s: MemStorage, ins: InsertUser): (r: Created<User>)
    ensures r.record.id == s.currentId && InsertPartOfUser(r.record) == ins
    ensures r.store == s.(users := r.store.users, currentId := s.currentId + 1)
    ensures Get(r.store.users, r.record.id) == Some(r.record)
    ensures forall id :: id != r.record.id ==> Get(r.store.users, id) == Get(s.users, id)
  {
    var id := s.currentId;
    var user := UserWithId(ins, id);
    SetThenGet(s.users, id, user);
    Created(s.(users := Set(s.users, id, user), currentId := id + 1), user)
  }

  // ----- analyses -----

  /** `getAnalysisByID(id)`: whatever is stored under `id`. */
  function GetAnalysisById(s: MemStorage, id: int): (r: Option<Analysis>)
    ensures r.Some? <==> HasKey(s.analyses, id)
    ensures r.Some? ==> exists i :: 0 <= i < |s.analyses| && s.analyses[i] == (id, r.value)
  {
    Get(s.analyses, id)
  }

  function OwnedBy(userId: int): Analysis -> bool {
    (a: Analysis) => a.userId == userId
  }

  /** `getAnalysesByUserId(uid)`: exactly the analyses of `uid`, in
      insertion order. */
  function GetAnalysesByUserId(s: MemStorage, userId: int): (r: seq<Analysis>)
    ensures forall i :: 0 <= i < |r| ==> r[i].userId == userId && r[i] in Values(s.analyses)
    ensures forall i :: 0 <= i < |s.analyses| && s.analyses[i].1.userId == userId ==> s.analyses[i].1 in r
    ensures IsSubsequence(r, Values(s.analyses))
    ensures forall a :: multiset(r)[a] == if a.userId == userId then multiset(Values(s.analyses))[a] else 0
  {
    var all := Values(s.analyses);
    OwnedFilter(all, userId);
    Filter(all, OwnedBy(userId))
  }

  /** What filtering a list of analyses by owner keeps, occurrence by
      occurrence. */
  lemma OwnedFilter(all: seq<Analysis>, userId: int)
    ensures var r := Filter(all, OwnedBy(userId));
      && (forall i :: 0 <= i < |r| ==> r[i].userId == userId && r[i] in all)
      && (forall i :: 0 <= i < |all| && all[i].userId == userId ==> all[i] in r)
      && IsSubsequence(r, all)
      && forall a :: multiset(r)[a] == if a.userId == userId then multiset(all)[a] else 0
  {
    var r := Filter(all, OwnedBy(userId));
    forall a: Analysis ensures multiset(r)[a] == if a.userId == userId then multiset(all)[a] else 0 {
      FilterCounts(all, OwnedBy(userId), a);
    }
  }

  /** `createAnalysis(ins)`: stores `ins` plus the next analysis id. */
  function CreateAnalysis(s: MemStorage, ins: InsertAnalysis): (r: Created<Analysis>)
    ensures r.record.id == s.currentAnalysisId && InsertPartOfAnalysis(r.record) == ins
    ensures r.store == s.(analyses := r.store.analyses, currentAnalysisId := s.currentAnalysisId + 1)
    ensures Get(r.store.analyses, r.record.id) == Some(r.record)
    ensures forall id :: id != r.record.id ==> Get(r.store.analyses, id) == Get(s.analyses, id)
  {
    var id := s.currentAnalysisId;
    var a := AnalysisWithId(ins, id);
    SetThenGet(s.analyses, id, a);
    Created(s.(analyses := Set(s.analyses, id, a), currentAnalysisId := id + 1), a)
  }

  // ----- contact requests -----

  /** `getContactRequests()`: all contact requests in insertion order. */
  function GetContactRequests(s: MemStorage): (r: seq<ContactRequest>)
    ensures |r| == |s.contactRequests|
    ensures forall i :: 0 <= i < |r| ==> r[i] == s.contactRequests[i].1
  {
    Values(s.contactRequests)
  }

  /** `createContactRequest(ins)`: stores `ins` plus the next contact id and
      `resolved = false`, whatever the input. */
  function CreateContactRequest(s: MemStorage, ins: InsertContactRequest): (r: Created<ContactRequest>)
    ensures r.record.id == s.currentContactRequestId
    ensures !r.record.resolved && InsertPartOfContactRequest(r.record) == ins
    ensures r.store == s.(contactRequests := r.store.contactRequests,
                          currentContactRequestId := s.currentContactRequestId + 1)
    ensures Get(r.store.contactRequests, r.record.id) == Some(r.record)
    ensures forall id :: id != r.record.id ==> Get(r.store.contactRequests, id) == Get(s.contactRequests, id)
  {
    var id := s.currentContactRequestId;
    var c := ContactRequestWithId(ins, id);
    SetThenGet(s.contactRequests, id, c);
    Created(s.(contactRequests := Set(s.contactRequests, id, c), currentContactRequestId := id + 1), c)
  }

  /** `updateContactRequest(id, resolved)`: an unknown id changes nothing and
      yields `undefined`; a known id gets its `resolved` flag replaced in
      place, and nothing else changes. */
  function UpdateContactRequest(s: MemStorage, id: int, resolved: bool): (r: Updated)
    ensures !HasKey(s.contactRequests, id) ==> r == Updated(s, None)
    ensures HasKey(s.contactRequests, id) ==>
      && r.record == Some(Get(s.contactRequests, id).value.(resolved := resolved))
      && r.store == s.(contactRequests := r.store.contactRequests)
      && |r.store.contactRequests| == |s.contactRequests|
      && Get(r.store.contactRequests, id) == r.record
    ensures forall i :: 0 <= i < |s.contactRequests| ==>
      && r.store.contactRequests[i].0 == s.contactRequests[i].0
      && (r.store.contactRequests[i] == s.contactRequests[i]
          || r.store.contactRequests[i] == (id, Get(s.contactRequests, id).value.(resolved := resolved)))
  {
    match Get(s.contactRequests, id)
    case None => Updated(s, None)
    case Some(c) =>
      var updated := c.(resolved := resolved);
      SetThenGet(s.contactRequests, id, updated);
      Updated(s.(contactRequests := Set(s.contactRequests, id, updated)), Some(updated))
  }

  /** On a valid store a lookup by id finds the record carrying that id,
      and every stored record is found under its own id. */
  lemma LookupById(s: MemStorage, id: int)
    requires Valid(s)
    ensures GetUser(s, id).Some? ==> GetUser(s, id).value.id == id
    ensures GetAnalysisById(s, id).Some? ==> GetAnalysisById(s, id).value.id == id
    ensures forall i :: 0 <= i < |s.users| && s.users[i].0 == id ==> GetUser(s, id) == Some(s.users[i].1)
    ensures forall i :: 0 <= i < |s.analyses| && s.analyses[i].0 == id ==> GetAnalysisById(s, id) == Some(s.analyses[i].1)
  {
    forall i | 0 <= i < |s.users| && s.users[i].0 == id
      ensures GetUser(s, id) == Some(s.users[i].1)
    {
      GetAtIndex(s.users, i);
    }
    forall i | 0 <= i < |s.analyses| && s.analyses[i].0 == id
      ensures GetAnalysisById(s, id) == Some(s.analyses[i].1)
    {
      GetAtIndex(s.analyses, i);
    }
  }

  // ----- the invariant is preserved -----

  lemma AppendKeepsTableValid<V>(m: Entries<V>, counter: int, v: V)
    requires TableValid(m, counter)
    ensures !HasKey(m, counter)
    ensures TableValid(m + [(counter, v)], counter + 1)
  {
  }

  /** A create on a valid store appends one entry keyed by the old counter. */
  lemma UserAppendKeepsValid(m: Entries<User>, counter: int, u: User)
    requires UsersValid(m, counter) && u.id == counter
    ensures !HasKey(m, counter)
    ensures UsersValid(m + [(counter, u)], counter + 1)
  {
    AppendKeepsTableValid(m, counter, u);
    var m' := m + [(counter, u)];
    assert forall i :: 0 <= i < |m| ==> m'[i] == m[i];
  }

  lemma AnalysisAppendKeepsValid(m: Entries<Analysis>, counter: int, a: Analysis)
    requires AnalysesValid(m, counter) && a.id == counter
    ensures !HasKey(m, counter)
    ensures AnalysesValid(m + [(counter, a)], counter + 1)
  {
    AppendKeepsTableValid(m, counter, a);
    var m' := m + [(counter, a)];
    assert forall i :: 0 <= i < |m| ==> m'[i] == m[i];
  }

  /** A create on a valid store appends one entry keyed by the old counter. */
  lemma CreateUserAppends(s: MemStorage, ins: InsertUser)
    requires Valid(s)
    ensures var r := CreateUser(s, ins);
      && r.store.users == s.users + [(s.currentId, r.record)]
      && Valid(r.store)
  {
    var r := CreateUser(s, ins);
    UserAppendKeepsValid(s.users, s.currentId, r.record);
    assert r.store.users == Set(s.users, s.currentId, r.record);
    assert r.store.users == s.users + [(s.currentId, r.record)];
  }

  lemma CreateAnalysisAppends(s: MemStorage, ins: InsertAnalysis)
    requires Valid(s)
    ensures var r := CreateAnalysis(s, ins);
      && r.store.analyses == s.analyses + [(s.currentAnalysisId, r.record)]
      && Valid(r.store)
  {
    var r := CreateAnalysis(s, ins);
    AnalysisAppendKeepsValid(s.analyses, s.currentAnalysisId, r.record);
    assert r.store.analyses == Set(s.analyses, s.currentAnalysisId, r.record);
    assert r.store.analyses == s.analyses + [(s.currentAnalysisId, r.record)];
  }

  lemma ContactAppendKeepsValid(m: Entries<ContactRequest>, counter: int, c: ContactRequest)
    requires ContactsValid(m, counter) && c.id == counter
    ensures !HasKey(m, counter)
    ensures ContactsValid(m + [(counter, c)], counter + 1)
  {
    AppendKeepsTableValid(m, counter, c);
    var m' := m + [(counter, c)];
    assert forall i :: 0 <= i < |m| ==> m'[i] == m[i];
  }

  lemma CreateContactRequestKeepsValid(s: MemStorage, ins: InsertContactRequest)
    requires Valid(s)
    ensures var r := CreateContactRequest(s, ins);
      && r.store.contactRequests == s.contactRequests + [(s.currentContactRequestId, r.record)]
      && Valid(r.store)
  {
    var r := CreateContactRequest(s, ins);
    ContactAppendKeepsValid(s.contactRequests, s.currentContactRequestId, r.record);
    assert r.store.contactRequests == Set(s.contactRequests, s.currentContactRequestId, r.record);
    assert r.store.contactRequests == s.contactRequests + [(s.currentContactRequestId, r.record)];
  }

  lemma CreateContactRequestAppends(s: MemStorage, ins: InsertContactRequest)
    requires Valid(s)
    ensures var r := CreateContactRequest(s, ins);
      && r.store.contactRequests == s.contactRequests + [(s.currentContactRequestId, r.record)]
      && GetContactRequests(r.store) == GetContactRequests(s) + [r.record]
      && Valid(r.store)
  {
    var r := CreateContactRequest(s, ins);
    CreateContactRequestKeepsValid(s, ins);
    ValuesAppend(s.contactRequests, s.currentContactRequestId, r.record);
  }

  /** Rewriting records without touching any key or record id keeps a
      contact table valid. */
  lemma SameKeysKeepContactsValid(m: Entries<ContactRequest>, m': Entries<ContactRequest>, counter: int)
    requires ContactsValid(m, counter)
    requires |m'| == |m|
    requires forall j :: 0 <= j < |m| ==> m'[j].0 == m[j].0 && m'[j].1.id == m[j].1.id
    ensures ContactsValid(m', counter)
  {
  }

  lemma UpdateKeepsValid(s: MemStorage, id: int, resolved: bool)
    requires Valid(s)
    ensures Valid(UpdateContactRequest(s, id, resolved).store)
  {
    var r := UpdateContactRequest(s, id, resolved);
    if HasKey(s.contactRequests, id) {
      var c := Get(s.contactRequests, id).value;
      var i :| 0 <= i < |s.contactRequests| && s.contactRequests[i] == (id, c);
      assert c.id == id;
      var m := r.store.contactRequests;
      forall j | 0 <= j < |s.contactRequests|
        ensures m[j].0 == s.contactRequests[j].0 && m[j].1.id == s.contactRequests[j].1.id
      {
      }
      SameKeysKeepContactsValid(s.contactRequests, m, s.currentContactRequestId);
    }
  }

  /** The entry under `id` is the only one an update rewrites, and only in
      its `resolved` flag. */
  lemma UpdateRewritesOneEntry(s: MemStorage, id: int, resolved: bool, i: int)
    requires Valid(s)
    requires 0 <= i < |s.contactRequests|
    ensures var after := UpdateContactRequest(s, id, resolved).store.contactRequests;
      && |after| == |s.contactRequests|
      && after[i].0 == s.contactRequests[i].0
      && (s.contactRequests[i].0 != id ==> after[i] == s.contactRequests[i])
      && (s.contactRequests[i].0 == id ==> after[i].1 == s.contactRequests[i].1.(resolved := resolved))
  {
    if s.contactRequests[i].0 == id {
      GetAtIndex(s.contactRequests, i);
    }
  }

  /** On a valid store an update keeps every id and position and changes only
      the `resolved` field of the one record stored under `id`. */
  lemma UpdateContactRequestOnlyFlag(s: MemStorage, id: int, resolved: bool)
    requires Valid(s)
    ensures var r := UpdateContactRequest(s, id, resolved);
      && Valid(r.store)
      && |GetContactRequests(r.store)| == |GetContactRequests(s)|
      && forall i :: 0 <= i < |s.contactRequests| ==>
           var before, after := GetContactRequests(s)[i], GetContactRequests(r.store)[i];
           && after.id == before.id
           && InsertPartOfContactRequest(after) == InsertPartOfContactRequest(before)
           && (before.id != id ==> after == before)
           && (before.id == id ==> after.resolved == resolved)
  {
    var r := UpdateContactRequest(s, id, resolved);
    UpdateKeepsValid(s, id, resolved);
    forall i | 0 <= i < |s.contactRequests|
      ensures var before, after := GetContactRequests(s)[i], GetContactRequests(r.store)[i];
        && after.id == before.id
        && InsertPartOfContactRequest(after) == InsertPartOfContactRequest(before)
        && (before.id != id ==> after == before)
        && (before.id == id ==> after.resolved == resolved)
    {
      UpdateRewritesOneEntry(s, id, resolved, i);
      UpdateKeepsValid(s, id, resolved);
    }
  }

  // ----- the store as a state machine -----

  datatype StoreOp =
    | AddUser(user: InsertUser)
    | AddAnalysis(analysis: InsertAnalysis)
    | AddContactRequest(request: InsertContactRequest)
    | SetResolved(id: int, resolved: bool)

  function Apply(s: MemStorage, op: StoreOp): MemStorage {
    match op
    case AddUser(u) => CreateUser(s, u).store
    case AddAnalysis(a) => CreateAnalysis(s, a).store
    case AddContactRequest(c) => CreateContactRequest(s, c).store
    case SetResolved(id, b) => UpdateContactRequest(s, id, b).store
  }

  function Run(s: MemStorage, ops: seq<StoreOp>): MemStorage
    decreases |ops|
  {
    if |ops| == 0 then s else Run(Apply(s, ops[0]), ops[1..])
  }

  /** Each single operation keeps the invariant and never moves a counter
      backwards. */
  lemma ApplyPreservesValid(s: MemStorage, op: StoreOp)
    requires Valid(s)
    ensures Valid(Apply(s, op))
    ensures Apply(s, op).currentId >= s.currentId
    ensures Apply(s, op).currentAnalysisId >= s.currentAnalysisId
    ensures Apply(s, op).currentContactRequestId >= s.currentContactRequestId
  {
    match op
    case AddUser(u) => CreateUserAppends(s, u);
    case AddAnalysis(a) => CreateAnalysisAppends(s, a);
    case AddContactRequest(c) => CreateContactRequestAppends(s, c);
    case SetResolved(id, b) => UpdateKeepsValid(s, id, b);
  }

  /** Every store reachable from a valid one is valid, and its counters are
      no smaller. */
  lemma {:induction false} RunPreservesValid(s: MemStorage, ops: seq<StoreOp>)
    requires Valid(s)
    ensures Valid(Run(s, ops))
    ensures Run(s, ops).currentId >= s.currentId
    ensures Run(s, ops).currentAnalysisId >= s.currentAnalysisId
    ensures Run(s, ops).currentContactRequestId >= s.currentContactRequestId
    decreases |ops|
  {
    if |ops| > 0 {
      var s1 := Apply(s, ops[0]);
      ApplyPreservesValid(s, ops[0]);
      RunPreservesValid(s1, ops[1..]);
      assert Run(s, ops) == Run(s1, ops[1..]);
    }
  }

  lemma ReachableStoresValid(ops: seq<StoreOp>)
    ensures Valid(Run(NewMemStorage(), ops))
  {
    RunPreservesValid(NewMemStorage(), ops);
  }

  /** Appending an analysis extends exactly its owner's list, at the end. */
  lemma AnalysesByUserAfterAppend(s: MemStorage, t: MemStorage, k: int, a: Analysis, userId: int)
    requires t.analyses == s.analyses + [(k, a)]
    ensures GetAnalysesByUserId(t, userId)
            == GetAnalysesByUserId(s, userId) + (if a.userId == userId then [a] else [])
  {
    ValuesAppend(s.analyses, k, a);
    FilterAppend(Values(s.analyses), a, OwnedBy(userId));
  }

  // ----- usernames are not unique in this store -----

  /** `createUser` accepts a username that is already taken: afterwards two
      users share it, and lookup by name still returns the earlier one. */
  lemma CreateUserAcceptsDuplicate(s: MemStorage, ins: InsertUser)
    requires Valid(s)
    requires GetUserByUsername(s, ins.username).Some?
    ensures var r := CreateUser(s, ins);
      && GetUser(r.store, r.record.id) == Some(r.record)
      && r.record.username == ins.username
      && GetUserByUsername(r.store, ins.username) == GetUserByUsername(s, ins.username)
      && r.record != GetUserByUsername(s, ins.username).value
  {
    var r := CreateUser(s, ins);
    CreateUserAppends(s, ins);
    ValuesAppend(s.users, s.currentId, r.record);
    FindAppend(Values(s.users), r.record, HasUsername(ins.username));
    var first := GetUserByUsername(s, ins.username).value;
    var i :| 0 <= i < |s.users| && s.users[i].1 == first;
    assert first.id == s.users[i].0 < s.currentId;
  }
}

/** `UserServiceImpl` over an in-memory user table that stands in for the
    JPA repository: rows keyed by id, fresh ids drawn from a counter. */
module Service {
  import opened Common
  import opened Domain
  import opened Dto

  /** The three repository queries a search may run. */
  datatype Query =
    | FindByLastName   // derived from the method name `findByLastName`
    | FindByName       // the named query `User.findByName`
    | Find             // the `@Query` annotation on `find`

  /** `findUsersBySearchType`'s dispatch: each search type selects its own
      query and no other. */
  function QueryFor(searchType: SearchType): (q: Query)
    ensures q == FindByLastName <==> searchType == MethodName
    ensures q == FindByName <==> searchType == NamedQuery
    ensures q == Find <==> searchType == QueryAnnotation
  {
    match searchType
    case MethodName => FindByLastName
    case NamedQuery => FindByName
    case QueryAnnotation => Find
  }

  /** Whether `query` with parameter `term` selects a user whose last name
      is `lastName`. The derived query's text is generated by the library;
      it is taken as plain equality. The other two share the JPQL condition
      `LOWER(u.lastName) = LOWER(term)`. */
  predicate Selects(query: Query, lastName: JString, term: JString): (selected: bool)
    ensures query == FindByLastName ==> (selected <==> lastName == term)
    ensures query != FindByLastName ==>
      (selected <==> lastName.Some? && term.Some? && Lower(lastName.value) == Lower(term.value))
  {
    match query
    case FindByLastName => lastName == term
    case FindByName => LowerEquals(lastName, term)
    case Find => LowerEquals(lastName, term)
  }

  /** The named query and the annotated query select the same users; the
      derived query is not claimed to agree with them. */
  lemma NamedAndAnnotatedQueriesAgree(lastName: JString, term: JString)
    ensures Selects(FindByName, lastName, term) == Selects(Find, lastName, term)
  {
  }

  /** The annotated and named queries ignore the case of the term; the
      derived query, taken as plain equality, does not. */
  lemma QueryCaseSensitivity()
    ensures Selects(Find, Some("Bar"), Some("BAR")) && Selects(FindByName, Some("Bar"), Some("bar"))
    ensures !Selects(FindByLastName, Some("Bar"), Some("BAR"))
  {
    assert Lower("Bar") == "bar";
    assert Lower("BAR") == "bar";
    assert Lower("bar") == "bar";
  }

  /** The effect of the flush at commit on an entity whose names `update`
      changed: JPA runs `preUpdate` only on a dirty entity. */
  function Flushed(row: UserRow, firstName: JString, lastName: JString, now: Instant): UserRow
  {
    var renamed := row.(firstName := firstName, lastName := lastName);
    if renamed == row then row else renamed.(modificationTime := Some(now))
  }

  /** What a flushed update keeps and what it changes. */
  lemma FlushedKeepsIdentity(row: UserRow, firstName: JString, lastName: JString, now: Instant)
    ensures var r := Flushed(row, firstName, lastName, now);
      && r.firstName == firstName && r.lastName == lastName
      && r.id == row.id && r.creationTime == row.creationTime && r.version == row.version
      && (r.modificationTime == row.modificationTime || r.modificationTime == Some(now))
      && (firstName == row.firstName && lastName == row.lastName ==> r == row)
  {
  }

  class UserService {
    /** The stored users, keyed by id. */
    var table: map<int, User>
    /** The next identifier the store hands out. */
    var nextId: int

    /** Every stored user carries its own key as id, and every key is below
        the next identifier (so distinct keys hold distinct objects, and the
        next identifier is unused). */
    ghost predicate Valid()
      reads this, table.Values
    {
      forall k :: k in table ==> table[k].id == Some(k) && k < nextId
    }

    /** The stored rows as values. */
    ghost function Rows(): map<int, UserRow>
      reads this, table.Values
    {
      map k | k in table :: table[k].Row()
    }

    /** An empty store. */
    constructor ()
      ensures Valid() && table == map[] && nextId == 1
    {
      table := map[];
      nextId := 1;
    }

    /** `userRepository.save` of a new entity: assigns the next identifier,
        runs `prePersist` and stores the user under its id. */
    method Persist(user: User, now: Instant)
      requires Valid() && user !in table.Values
      modifies this, user
      ensures Valid()
      ensures old(nextId) !in old(table)
      ensures table == old(table)[old(nextId) := user] && nextId == old(nextId) + 1
      ensures user.Row() == old(user.Row()).(id := Some(old(nextId)), creationTime := Some(now),
                                             modificationTime := Some(now))
      ensures Rows() == old(Rows())[old(nextId) := user.Row()]
    {
      user.SetId(Some(nextId));
      user.PrePersist(now);
      table := table[nextId := user];
      nextId := nextId + 1;
      assert forall k :: k in table && k != old(nextId) ==> table[k] == old(table)[k] && table[k] != user;
    }

    /** `create`: builds a user from the form's names and saves it; the
        saved user is returned. No validation happens here. */
    method Create(created: UserDTO, now: Instant) returns (user: User)
      requires Valid()
      modifies this
      ensures Valid() && fresh(user)
      ensures old(nextId) !in old(table) && table == old(table)[old(nextId) := user]
      ensures nextId == old(nextId) + 1
      ensures user.Row() == UserRow(Some(old(nextId)), Some(now), old(created.firstName), old(created.lastName),
                                    Some(now), 0)
      ensures Rows() == old(Rows())[old(nextId) := user.Row()]
    {
      user := NewUser(created.firstName, created.lastName);
      Persist(user, now);
    }

    /** `delete`: removes the user stored under `userId` and returns it; a
        missing id raises `UserNotFound` and, by the rollback, leaves the
        table as it was. */
    method Delete(userId: int) returns (r: Result<User>)
      requires Valid()
      modifies this
      ensures Valid() && nextId == old(nextId)
      ensures userId in old(table) ==> r == Ok(old(table)[userId]) && r.value.Row() == old(Rows())[userId]
      ensures userId !in old(table) ==> r == Err(UserNotFound)
      ensures table == old(table) - {userId}
      ensures Rows() == old(Rows()) - {userId}
    {
      var deleted := FindById(userId);
      if deleted.None? {
        return Err(UserNotFound);
      }
      table := table - {userId};
      r := Ok(deleted.value);
    }

    /** `findAll`: every stored user, each of them the user stored under its
        own id. */
    function FindAll(): (users: set<User>)
      reads this, table.Values
      requires Valid()
      ensures forall k :: k in table ==> table[k] in users
      ensures forall u :: u in users ==> u.id.Some? && u.id.value in table && table[u.id.value] == u
    {
      set k | k in table :: table[k]
    }

    /** `findById`: the user stored under `id`, or absent; never raises. */
    function FindById(id: int): (r: Option<User>)
      reads this, table.Values
      requires Valid()
      ensures r.Some? <==> id in table
      ensures r.Some? ==> r.value == table[id] && r.value.id == Some(id)
    {
      if id in table then Some(table[id]) else None
    }

    /** `findUsersBySearchType`: the stored users that the query chosen by
        the search type selects, and no others. */
    function FindUsersBySearchType(searchTerm: JString, searchType: SearchType): (users: set<User>)
      reads this, table.Values
      ensures forall u :: u in users ==> u in table.Values
      ensures forall k :: k in table ==>
        (table[k] in users <==> Selects(QueryFor(searchType), table[k].lastName, searchTerm))
    {
      set k | k in table && Selects(QueryFor(searchType), table[k].lastName, searchTerm) :: table[k]
    }

    /** `search`: an unset search type raises `IllegalArgument` before the
        store is consulted; otherwise the stored users the chosen query
        selects. */
    function Search(criteria: SearchCriteria): (r: Result<set<User>>)
      reads this, table.Values
      ensures r.Err? <==> criteria.searchType.None?
      ensures r.Err? ==> r.failure == IllegalArgument
      ensures r.Ok? ==> forall u :: u in r.value ==> u in table.Values
      ensures r.Ok? ==> forall k :: k in table ==>
        (table[k] in r.value <==> Selects(QueryFor(criteria.searchType.value), table[k].lastName, criteria.searchTerm))
    {
      if criteria.searchType.None? then Err(IllegalArgument)
      else Ok(FindUsersBySearchType(criteria.searchTerm, criteria.searchType.value))
    }

    /** The named query and the annotated query find the same users, and
        either finds the same users whether the term is given as typed, in
        capitals or in lower case. */
    lemma SearchIgnoresCase(term: string, searchType: SearchType)
      requires searchType != MethodName
      ensures FindUsersBySearchType(Some(term), NamedQuery) == FindUsersBySearchType(Some(term), QueryAnnotation)
      ensures FindUsersBySearchType(Some(Upper(term)), searchType) == FindUsersBySearchType(Some(term), searchType)
      ensures FindUsersBySearchType(Some(Lower(term)), searchType) == FindUsersBySearchType(Some(term), searchType)
    {
      forall k | k in table
        ensures Selects(QueryFor(searchType), table[k].lastName, Some(Upper(term)))
                == Selects(QueryFor(searchType), table[k].lastName, Some(term))
        ensures Selects(QueryFor(searchType), table[k].lastName, Some(Lower(term)))
                == Selects(QueryFor(searchType), table[k].lastName, Some(term))
      {
        NamedQueryIgnoresCase(table[k].lastName, term);
      }
    }

    /** `update`: renames the user stored under the form's id in place, with
        no save call, and returns it; the flush at commit stamps the
        modification time when the names changed. A null id is rejected by
        the store's lookup with `IllegalArgument`; a missing id raises
        `UserNotFound`; in both cases the table is unchanged. */
    method Update(updated: UserDTO, now: Instant) returns (r: Result<User>)
      requires Valid()
      modifies table.Values
      ensures Valid()
      ensures updated.id.None? ==> r == Err(IllegalArgument) && Rows() == old(Rows())
      ensures updated.id.Some? && updated.id.value !in table ==> r == Err(UserNotFound) && Rows() == old(Rows())
      ensures updated.id.Some? && updated.id.value in table ==>
        var k := updated.id.value;
        && r == Ok(table[k])
        && r.value.id == Some(k) && r.value.firstName == updated.firstName && r.value.lastName == updated.lastName
        && Rows() == old(Rows())[k := Flushed(old(Rows())[k], updated.firstName, updated.lastName, now)]
    {
      if updated.id.None? {
        return Err(IllegalArgument);
      }
      var user := FindById(updated.id.value);
      if user.None? {
        return Err(UserNotFound);
      }
      var u := user.value;
      var before := u.Row();
      u.Update(updated.firstName, updated.lastName);
      if u.Row() != before {
        u.PreUpdate(now);
      }
      assert forall k :: k in table && k != updated.id.value ==> table[k] != u;
      r := Ok(u);
    }
  }
}

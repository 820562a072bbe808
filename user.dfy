/** The `User` entity: a mutable record whose name fields are changed in
    place, whose timestamps are stamped by two lifecycle hooks, and whose
    display name is derived from the two names. */
module Domain {
  import opened Common

  /** A wall-clock reading (`java.util.Date`). The clock itself is not
      modelled: every operation that reads it takes the reading as `now`. */
  type Instant = int

  /** The value held by one `User` object at one moment. */
  datatype UserRow = UserRow(
    id: Option<int>,
    creationTime: Option<Instant>,
    firstName: JString,
    lastName: JString,
    modificationTime: Option<Instant>,
    version: int)

  /** A user as the `User` constructor leaves it: every reference null and
      the optimistic-locking counter at its initial value 0. */
  const BlankRow := UserRow(None, None, None, None, None, 0)

  // ---------------------------------------------------------------------
  // Display name
  // ---------------------------------------------------------------------

  /** `firstName`, one space, `lastName`, as `getName` appends them. */
  function DisplayName(firstName: JString, lastName: JString): string
  {
    Render(firstName) + " " + Render(lastName)
  }

  /** The characters of `s` before its first space (all of `s` if none). */
  function BeforeSpace(s: string): string
  {
    if s == [] then []
    else if s[0] == ' ' then []
    else [s[0]] + BeforeSpace(s[1..])
  }

  /** The characters of `s` after its first space (empty if none). */
  function AfterSpace(s: string): string
  {
    if s == [] then []
    else if s[0] == ' ' then s[1..]
    else AfterSpace(s[1..])
  }

  /** Splitting a display name at its first space gives back the two names,
      provided the first name holds no space itself. */
  lemma {:induction false} DisplayNameSplits(first: string, last: string)
    requires ' ' !in first
    ensures BeforeSpace(first + " " + last) == first
    ensures AfterSpace(first + " " + last) == last
  {
    var s := first + " " + last;
    if first == [] {
      assert s == " " + last;
    } else {
      assert s[0] == first[0];
      assert s[1..] == first[1..] + " " + last;
      DisplayNameSplits(first[1..], last);
    }
  }

  /** The display name loses nothing: two users whose first names hold no
      space have the same display name only if they render the same first
      name and the same last name. */
  lemma DisplayNameInjective(f1: JString, l1: JString, f2: JString, l2: JString)
    requires ' ' !in Render(f1) && ' ' !in Render(f2)
    requires DisplayName(f1, l1) == DisplayName(f2, l2)
    ensures Render(f1) == Render(f2) && Render(l1) == Render(l2)
  {
    DisplayNameSplits(Render(f1), Render(l1));
    DisplayNameSplits(Render(f2), Render(l2));
  }

  // ---------------------------------------------------------------------
  // Case folding and the named query `User.findByName`
  // ---------------------------------------------------------------------

  /** SQL `LOWER` on one character (ASCII letters only). */
  function LowerChar(c: char): char
  {
    if 'A' <= c <= 'Z' then (c as int - 'A' as int + 'a' as int) as char else c
  }

  /** SQL `UPPER` on one character (ASCII letters only). */
  function UpperChar(c: char): char
  {
    if 'a' <= c <= 'z' then (c as int - 'a' as int + 'A' as int) as char else c
  }

  function Lower(s: string): string
  {
    if s == [] then [] else [LowerChar(s[0])] + Lower(s[1..])
  }

  function Upper(s: string): string
  {
    if s == [] then [] else [UpperChar(s[0])] + Upper(s[1..])
  }

  /** Folding to lower case forgets a prior fold to upper case. */
  lemma {:induction false} LowerOfUpper(s: string)
    ensures Lower(Upper(s)) == Lower(s)
  {
    if s != [] {
      LowerOfUpper(s[1..]);
    }
  }

  /** Folding to lower case twice is folding once. */
  lemma {:induction false} LowerIdempotent(s: string)
    ensures Lower(Lower(s)) == Lower(s)
  {
    if s != [] {
      LowerIdempotent(s[1..]);
    }
  }

  /** `LOWER(u.lastName) = LOWER(?1)` under SQL's null rules: a null on
      either side makes the comparison unknown, so the row is not selected. */
  predicate LowerEquals(lastName: JString, term: JString)
  {
    lastName.Some? && term.Some? && Lower(lastName.value) == Lower(term.value)
  }

  /** The named query `User.findByName` selects a user exactly when both
      last name and term are non-null and they agree after folding to lower
      case; writing the term in capitals selects the same users. */
  lemma NamedQueryIgnoresCase(lastName: JString, term: string)
    ensures LowerEquals(lastName, Some(term))
            <==> lastName.Some? && Lower(lastName.value) == Lower(term)
    ensures LowerEquals(lastName, Some(Upper(term))) == LowerEquals(lastName, Some(term))
    ensures LowerEquals(lastName, Some(Lower(term))) == LowerEquals(lastName, Some(term))
  {
    LowerOfUpper(term);
    LowerIdempotent(term);
  }

  // ---------------------------------------------------------------------
  // The entity
  // ---------------------------------------------------------------------

  class User {
    var id: Option<int>
    var creationTime: Option<Instant>
    var firstName: JString
    var lastName: JString
    var modificationTime: Option<Instant>
    var version: int

    /** `new User()`. */
    constructor ()
      ensures Row() == BlankRow
    {
      id, creationTime, firstName, lastName := None, None, None, None;
      modificationTime, version := None, 0;
    }

    /** The current value of every field. */
    function Row(): UserRow
      reads this
    {
      UserRow(id, creationTime, firstName, lastName, modificationTime, version)
    }

    /** `getName`: the first name, a space, then the last name; a null name
        appears as "null". */
    function GetName(): (r: string)
      reads this
      ensures |r| == |Render(firstName)| + 1 + |Render(lastName)|
      ensures r[..|Render(firstName)|] == Render(firstName)
      ensures r[|Render(firstName)|] == ' '
      ensures r[|Render(firstName)| + 1..] == Render(lastName)
    {
      DisplayName(firstName, lastName)
    }

    /** `update(firstName, lastName)`: replaces the two names and nothing else. */
    method Update(firstName: JString, lastName: JString)
      modifies this`firstName, this`lastName
      ensures this.firstName == firstName && this.lastName == lastName
      ensures Row() == old(Row()).(firstName := firstName, lastName := lastName)
    {
      this.firstName := firstName;
      this.lastName := lastName;
    }

    /** `preUpdate`: stamps the modification time, never the creation time. */
    method PreUpdate(now: Instant)
      modifies this`modificationTime
      ensures modificationTime == Some(now)
      ensures Row() == old(Row()).(modificationTime := Some(now))
    {
      modificationTime := Some(now);
    }

    /** `prePersist`: one clock reading stamps both times. */
    method PrePersist(now: Instant)
      modifies this`creationTime, this`modificationTime
      ensures creationTime == modificationTime == Some(now)
      ensures Row() == old(Row()).(creationTime := Some(now), modificationTime := Some(now))
    {
      creationTime := Some(now);
      modificationTime := Some(now);
    }

    /** `setId`, which the store uses when it assigns an identifier. */
    method SetId(id: Option<int>)
      modifies this`id
      ensures Row() == old(Row()).(id := id)
    {
      this.id := id;
    }
  }

  /** `User.Builder`: holds the user under construction. */
  class Builder {
    var built: User

    /** `new Builder(firstName, lastName)`: a fresh blank user given the two names. */
    constructor (firstName: JString, lastName: JString)
      ensures fresh(built)
      ensures built.Row() == BlankRow.(firstName := firstName, lastName := lastName)
    {
      var u := new User();
      u.firstName := firstName;
      u.lastName := lastName;
      built := u;
    }

    /** `build`: hands out the user under construction. */
    method Build() returns (u: User)
      ensures u == built
    {
      u := built;
    }
  }

  /** `User.getBuilder(firstName, lastName).build()`: a fresh user with the
      two names, a null id, no timestamps and version 0. */
  method NewUser(firstName: JString, lastName: JString) returns (u: User)
    ensures fresh(u)
    ensures u.Row() == UserRow(None, None, firstName, lastName, None, 0)
  {
    var builder := new Builder(firstName, lastName);
    u := builder.Build();
  }
}

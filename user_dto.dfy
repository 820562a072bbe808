/** The form-backing bean `UserDTO`, its `@NotEmpty` rule, and the search
    criteria the list page submits. */
module Dto {
  import opened Common

  /** The field names under which validation reports a violation. */
  const FirstNameField := "firstName"
  const LastNameField := "lastName"

  /** Hibernate Validator's `@NotEmpty` on a string: non-null and at least one
      character long (a string of blanks passes). */
  predicate NotEmpty(s: JString)
  {
    s.Some? && |s.value| > 0
  }

  /** The field names whose `@NotEmpty` constraint the two names violate.
      The id carries no constraint, so it is not an input. */
  function NameViolations(firstName: JString, lastName: JString): (r: set<string>)
    ensures FirstNameField in r <==> !NotEmpty(firstName)
    ensures LastNameField in r <==> !NotEmpty(lastName)
    ensures forall field :: field in r ==> field == FirstNameField || field == LastNameField
  {
    (if NotEmpty(firstName) then {} else {FirstNameField})
    + (if NotEmpty(lastName) then {} else {LastNameField})
  }

  /** A form passes validation exactly when both names are non-empty. */
  lemma ValidIffBothNamesPresent(firstName: JString, lastName: JString)
    ensures NameViolations(firstName, lastName) == {} <==> NotEmpty(firstName) && NotEmpty(lastName)
  {
    if !NotEmpty(firstName) {
      assert FirstNameField in NameViolations(firstName, lastName);
    }
  }

  /** A missing first name alone yields exactly the one violation "firstName". */
  lemma OnlyFirstNameMissing(firstName: JString, lastName: JString)
    requires !NotEmpty(firstName) && NotEmpty(lastName)
    ensures NameViolations(firstName, lastName) == {FirstNameField}
  {
  }

  /** A missing last name alone yields exactly the one violation "lastName". */
  lemma OnlyLastNameMissing(firstName: JString, lastName: JString)
    requires NotEmpty(firstName) && !NotEmpty(lastName)
    ensures NameViolations(firstName, lastName) == {LastNameField}
  {
  }

  /** With both names missing there are exactly two violations, one per field. */
  lemma BothNamesMissing(firstName: JString, lastName: JString)
    requires !NotEmpty(firstName) && !NotEmpty(lastName)
    ensures NameViolations(firstName, lastName) == {FirstNameField, LastNameField}
    ensures |NameViolations(firstName, lastName)| == 2
  {
  }

  class UserDTO {
    var id: Option<int>
    var firstName: JString
    var lastName: JString

    /** `new UserDTO()`: id and both names null. */
    constructor ()
      ensures id == None && firstName == None && lastName == None
    {
      id, firstName, lastName := None, None, None;
    }

    method SetId(id: Option<int>)
      modifies this`id
      ensures this.id == id
      ensures firstName == old(firstName) && lastName == old(lastName)
    {
      this.id := id;
    }

    method SetFirstName(firstName: JString)
      modifies this`firstName
      ensures this.firstName == firstName
      ensures id == old(id) && lastName == old(lastName)
    {
      this.firstName := firstName;
    }

    method SetLastName(lastName: JString)
      modifies this`lastName
      ensures this.lastName == lastName
      ensures id == old(id) && firstName == old(firstName)
    {
      this.lastName := lastName;
    }

    /** The field errors `@Valid` binding records for this form. */
    function Violations(): (r: set<string>)
      reads this
      ensures r == {} <==> NotEmpty(firstName) && NotEmpty(lastName)
    {
      ValidIffBothNamesPresent(firstName, lastName);
      NameViolations(firstName, lastName)
    }
  }

  /** Two forms with the same names get the same field errors, whatever
      their ids. */
  lemma ViolationsIgnoreId(a: UserDTO, b: UserDTO)
    requires a.firstName == b.firstName && a.lastName == b.lastName
    ensures a.Violations() == b.Violations()
  {
  }

  /** `SearchType`: which of the repository's three queries runs. */
  datatype SearchType = MethodName | NamedQuery | QueryAnnotation

  /** `SearchDTO`: the search term and the (possibly unset) search type. */
  datatype SearchCriteria = SearchCriteria(searchTerm: JString, searchType: Option<SearchType>)

  /** `new SearchDTO()`: term and type both null. */
  const EmptyCriteria := SearchCriteria(None, None)
}

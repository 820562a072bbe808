/** `AbstractController` and `UserController`: each request handler chooses
    a view name, writes model attributes or flash messages, and calls the
    user service at most once. */
module Controllers {
  import opened Common
  import opened Domain
  import opened Dto
  import opened Service

  // ---------------------------------------------------------------------
  // AbstractController
  // ---------------------------------------------------------------------

  /** The only two flash keys the controllers write. */
  const FlashErrorMessage := "errorMessage"
  const FlashFeedbackMessage := "feedbackMessage"

  const ViewRedirectPrefix := "redirect:"

  /** The locale `LocaleContextHolder` reports for the current request. */
  type Locale = string

  /** `MessageSource.getMessage(code, params, locale)`: the localised text,
      left uninterpreted. */
  type MessageSource = (string, seq<string>, Locale) -> string

  /** `RedirectAttributes`: the flash entries carried across one redirect. */
  class RedirectAttributes {
    var flash: map<string, string>

    constructor ()
      ensures flash == map[]
    {
      flash := map[];
    }

    /** `addFlashAttribute`: sets one entry and leaves the others as they were. */
    method AddFlashAttribute(name: string, value: string)
      modifies this
      ensures flash == old(flash)[name := value]
    {
      flash := flash[name := value];
    }
  }

  /** `createRedirectViewPath`: the redirect marker followed by the path. */
  function CreateRedirectViewPath(path: string): (view: string)
    ensures |view| == |ViewRedirectPrefix| + |path|
    ensures view[..|ViewRedirectPrefix|] == ViewRedirectPrefix
    ensures view[|ViewRedirectPrefix|..] == path
  {
    ViewRedirectPrefix + path
  }

  /** The path a view name redirects to, if it is a redirect at all. */
  function RedirectTarget(view: string): Option<string>
  {
    if |view| >= |ViewRedirectPrefix| && view[..|ViewRedirectPrefix|] == ViewRedirectPrefix
    then Some(view[|ViewRedirectPrefix|..])
    else None
  }

  /** A redirect view names its path and nothing else: reading the target
      back gives the path, and a view with a target is the redirect to it. */
  lemma RedirectTargetRoundTrip(path: string, view: string)
    ensures RedirectTarget(CreateRedirectViewPath(path)) == Some(path)
    ensures RedirectTarget(view) == Some(path) ==> view == CreateRedirectViewPath(path)
  {
    if RedirectTarget(view) == Some(path) {
      assert view == view[..|ViewRedirectPrefix|] + view[|ViewRedirectPrefix|..];
    }
  }

  /** `addErrorMessage`: stores the localised text under "errorMessage"
      and touches no other flash entry. */
  method AddErrorMessage(attributes: RedirectAttributes, messageSource: MessageSource, locale: Locale,
                         code: string, params: seq<string>)
    modifies attributes
    ensures attributes.flash == old(attributes.flash)[FlashErrorMessage := messageSource(code, params, locale)]
  {
    var localizedErrorMessage := messageSource(code, params, locale);
    attributes.AddFlashAttribute(FlashErrorMessage, localizedErrorMessage);
  }

  /** `addFeedbackMessage`: stores the localised text under
      "feedbackMessage" and touches no other flash entry. */
  method AddFeedbackMessage(attributes: RedirectAttributes, messageSource: MessageSource, locale: Locale,
                            code: string, params: seq<string>)
    modifies attributes
    ensures attributes.flash == old(attributes.flash)[FlashFeedbackMessage := messageSource(code, params, locale)]
  {
    var localizedFeedbackMessage := messageSource(code, params, locale);
    attributes.AddFlashAttribute(FlashFeedbackMessage, localizedFeedbackMessage);
  }

  // ---------------------------------------------------------------------
  // UserController
  // ---------------------------------------------------------------------

  const ErrorDeletedNotFound := "error.message.deleted.not.found"
  const ErrorEditedNotFound := "error.message.edited.not.found"

  const FeedbackUserCreated := "feedback.message.user.created"
  const FeedbackUserDeleted := "feedback.message.user.deleted"
  const FeedbackUserEdited := "feedback.message.user.edited"

  const ModelAttributeUser := "user"
  const ModelAttributeUsers := "users"
  const ModelAttributeSearchCriteria := "searchCriteria"

  const UserAddFormView := "user/create"
  const UserEditFormView := "user/edit"
  const UserListView := "user/list"
  const UserSearchResultView := "user/searchResults"

  const RequestMappingList := "/"

  /** The redirect every state-changing handler ends with. */
  const RedirectToList := "redirect:/"

  /** Handlers that end with a redirect end with the redirect to the list;
      the form, list and result views are not redirects. */
  lemma ViewNames()
    ensures CreateRedirectViewPath(RequestMappingList) == RedirectToList
    ensures RedirectTarget(RedirectToList) == Some(RequestMappingList)
    ensures RedirectTarget(UserAddFormView) == None && RedirectTarget(UserEditFormView) == None
    ensures RedirectTarget(UserListView) == None && RedirectTarget(UserSearchResultView) == None
  {
    RedirectTargetRoundTrip(RequestMappingList, RedirectToList);
    assert UserAddFormView[0] != ViewRedirectPrefix[0];
    assert UserEditFormView[0] != ViewRedirectPrefix[0];
    assert UserListView[0] != ViewRedirectPrefix[0];
    assert UserSearchResultView[0] != ViewRedirectPrefix[0];
  }

  /** A value a handler puts into the request model. */
  datatype Attribute =
    | Users(users: set<User>)
    | Form(form: UserDTO)
    | Criteria(criteria: SearchCriteria)

  /** Spring's `Model`: the named attributes handed to the view. */
  class Model {
    var attributes: map<string, Attribute>

    constructor ()
      ensures attributes == map[]
    {
      attributes := map[];
    }

    /** `addAttribute`: sets one attribute and leaves the others as they were. */
    method AddAttribute(name: string, value: Attribute)
      modifies this
      ensures attributes == old(attributes)[name := value]
    {
      attributes := attributes[name := value];
    }
  }

  /** One call from the controller into the user service. */
  datatype ServiceCall =
    | CreateCall(created: UserDTO)
    | DeleteCall(userId: int)
    | FindAllCall
    | FindByIdCall(id: int)
    | SearchCall(criteria: SearchCriteria)
    | UpdateCall(updated: UserDTO)

  class UserController {
    const service: UserService
    const messageSource: MessageSource
    const locale: Locale
    /** The service calls made so far, in order. */
    ghost var calls: seq<ServiceCall>

    constructor (service: UserService, messageSource: MessageSource, locale: Locale)
      ensures this.service == service && this.messageSource == messageSource && this.locale == locale
      ensures calls == []
    {
      this.service := service;
      this.messageSource := messageSource;
      this.locale := locale;
      calls := [];
    }

    /** The text `messageSource` gives for `code` and `params` in the locale. */
    function Message(code: string, params: seq<string>): string
    {
      messageSource(code, params, locale)
    }

    /** `delete`: deletes the user and reports its display name, or reports
        that it was missing; either way redirects to the list. */
    method Delete(id: int, attributes: RedirectAttributes) returns (view: string)
      requires service.Valid()
      modifies this, service, attributes
      ensures service.Valid()
      ensures view == RedirectToList
      ensures calls == old(calls) + [DeleteCall(id)]
      ensures service.Rows() == old(service.Rows()) - {id}
      ensures id in old(service.table) ==>
        var row := old(service.Rows())[id];
        attributes.flash == old(attributes.flash)[FlashFeedbackMessage :=
          Message(FeedbackUserDeleted, [DisplayName(row.firstName, row.lastName)])]
      ensures id !in old(service.table) ==>
        attributes.flash == old(attributes.flash)[FlashErrorMessage := Message(ErrorDeletedNotFound, [])]
    {
      calls := calls + [DeleteCall(id)];
      var r := service.Delete(id);
      match r {
        case Ok(deleted) =>
          AddFeedbackMessage(attributes, messageSource, locale, FeedbackUserDeleted, [deleted.GetName()]);
        case Err(_) =>
          AddErrorMessage(attributes, messageSource, locale, ErrorDeletedNotFound, []);
      }
      view := CreateRedirectViewPath(RequestMappingList);
    }

    /** `search`: runs the service search and shows its result; the
        `IllegalArgument` failure of an unset search type is not caught. */
    method Search(criteria: SearchCriteria, model: Model) returns (r: Result<string>)
      modifies this, model
      ensures calls == old(calls) + [SearchCall(criteria)]
      ensures criteria.searchType.None? ==>
        r == Err(IllegalArgument) && model.attributes == old(model.attributes)
      ensures criteria.searchType.Some? ==>
        && r == Ok(UserSearchResultView)
        && model.attributes == old(model.attributes)[ModelAttributeUsers :=
             Users(service.FindUsersBySearchType(criteria.searchTerm, criteria.searchType.value))]
    {
      calls := calls + [SearchCall(criteria)];
      var users := service.Search(criteria);
      if users.Err? {
        return Err(users.failure);
      }
      model.AddAttribute(ModelAttributeUsers, Users(users.value));
      r := Ok(UserSearchResultView);
    }

    /** `showCreateUserForm`: an empty form, without any service call. */
    method ShowCreateUserForm(model: Model) returns (view: string)
      modifies model
      ensures view == UserAddFormView && calls == old(calls)
      ensures ModelAttributeUser in model.attributes && model.attributes[ModelAttributeUser].Form?
      ensures var form := model.attributes[ModelAttributeUser].form;
        && fresh(form) && form.id == None && form.firstName == None && form.lastName == None
        && model.attributes == old(model.attributes)[ModelAttributeUser := Form(form)]
    {
      var form := new UserDTO();
      model.AddAttribute(ModelAttributeUser, Form(form));
      view := UserAddFormView;
    }

    /** `submitCreateUserForm`: a form with field errors is shown again and
        the service is not called; otherwise the user is created exactly
        once, its display name is reported, and the list is shown. */
    method SubmitCreateUserForm(created: UserDTO, attributes: RedirectAttributes, now: Instant)
      returns (view: string)
      requires service.Valid()
      modifies this, service, attributes
      ensures service.Valid()
      ensures created.Violations() != {} ==>
        && view == UserAddFormView
        && calls == old(calls)
        && service.table == old(service.table) && service.nextId == old(service.nextId)
        && service.Rows() == old(service.Rows())
        && attributes.flash == old(attributes.flash)
      ensures created.Violations() == {} ==>
        && view == RedirectToList
        && calls == old(calls) + [CreateCall(created)]
        && service.nextId == old(service.nextId) + 1
        && service.Rows() == old(service.Rows())[old(service.nextId) :=
             UserRow(Some(old(service.nextId)), Some(now), created.firstName, created.lastName, Some(now), 0)]
        && attributes.flash == old(attributes.flash)[FlashFeedbackMessage :=
             Message(FeedbackUserCreated, [DisplayName(created.firstName, created.lastName)])]
    {
      if created.Violations() != {} {
        return UserAddFormView;
      }
      calls := calls + [CreateCall(created)];
      var user := service.Create(created, now);
      AddFeedbackMessage(attributes, messageSource, locale, FeedbackUserCreated, [user.GetName()]);
      view := CreateRedirectViewPath(RequestMappingList);
    }

    /** `showEditUserForm`: the edit form filled from the stored user, or,
        when there is none, an error message and the list. */
    method ShowEditUserForm(id: int, model: Model, attributes: RedirectAttributes) returns (view: string)
      requires service.Valid()
      modifies this, model, attributes
      ensures calls == old(calls) + [FindByIdCall(id)]
      ensures id !in service.table ==>
        && view == RedirectToList
        && attributes.flash == old(attributes.flash)[FlashErrorMessage := Message(ErrorEditedNotFound, [])]
        && model.attributes == old(model.attributes)
      ensures id in service.table ==>
        && view == UserEditFormView
        && attributes.flash == old(attributes.flash)
        && ModelAttributeUser in model.attributes && model.attributes[ModelAttributeUser].Form?
        && var form := model.attributes[ModelAttributeUser].form;
           && fresh(form)
           && form.id == Some(id)
           && form.firstName == service.table[id].firstName
           && form.lastName == service.table[id].lastName
           && model.attributes == old(model.attributes)[ModelAttributeUser := Form(form)]
    {
      calls := calls + [FindByIdCall(id)];
      var user := service.FindById(id);
      if user.None? {
        AddErrorMessage(attributes, messageSource, locale, ErrorEditedNotFound, []);
        return CreateRedirectViewPath(RequestMappingList);
      }
      var form := ConstructFormObject(user.value);
      model.AddAttribute(ModelAttributeUser, Form(form));
      view := UserEditFormView;
    }

    /** `submitEditUserForm`: a form with field errors is shown again and
        the service is not called; otherwise the service renames the user
        exactly once and the outcome is reported before the list is shown.
        Only `UserNotFound` is caught: the `IllegalArgument` a null form id
        raises in the service escapes the handler. */
    method SubmitEditUserForm(updated: UserDTO, attributes: RedirectAttributes, now: Instant)
      returns (r: Result<string>)
      requires service.Valid()
      modifies this, service.table.Values, attributes
      ensures service.Valid()
      ensures updated.Violations() != {} ==>
        && r == Ok(UserEditFormView)
        && calls == old(calls)
        && service.Rows() == old(service.Rows())
        && attributes.flash == old(attributes.flash)
      ensures updated.Violations() == {} ==> calls == old(calls) + [UpdateCall(updated)]
      ensures updated.Violations() == {} && updated.id.None? ==>
        && r == Err(IllegalArgument)
        && service.Rows() == old(service.Rows())
        && attributes.flash == old(attributes.flash)
      ensures updated.Violations() == {} && updated.id.Some? && updated.id.value in service.table ==>
        var k := updated.id.value;
        && r == Ok(RedirectToList)
        && service.Rows() == old(service.Rows())[k :=
             Flushed(old(service.Rows())[k], updated.firstName, updated.lastName, now)]
        && attributes.flash == old(attributes.flash)[FlashFeedbackMessage :=
             Message(FeedbackUserEdited, [DisplayName(updated.firstName, updated.lastName)])]
      ensures updated.Violations() == {} && updated.id.Some? && updated.id.value !in service.table ==>
        && r == Ok(RedirectToList)
        && service.Rows() == old(service.Rows())
        && attributes.flash == old(attributes.flash)[FlashErrorMessage := Message(ErrorEditedNotFound, [])]
    {
      if updated.Violations() != {} {
        return Ok(UserEditFormView);
      }
      calls := calls + [UpdateCall(updated)];
      var result := service.Update(updated, now);
      match result {
        case Ok(user) =>
          AddFeedbackMessage(attributes, messageSource, locale, FeedbackUserEdited, [user.GetName()]);
        case Err(UserNotFound) =>
          AddErrorMessage(attributes, messageSource, locale, ErrorEditedNotFound, []);
        case Err(IllegalArgument) =>
          return Err(IllegalArgument);
      }
      var view := CreateRedirectViewPath(RequestMappingList);
      assert view == RedirectToList;
      r := Ok(view);
    }

    /** `constructFormObject`: a new form holding the user's id and names. */
    method ConstructFormObject(user: User) returns (form: UserDTO)
      ensures fresh(form)
      ensures form.id == user.id && form.firstName == user.firstName && form.lastName == user.lastName
    {
      form := new UserDTO();
      form.SetId(user.id);
      form.SetFirstName(user.firstName);
      form.SetLastName(user.lastName);
    }

    /** `showList`: every stored user plus fresh search criteria with
        neither term nor type. */
    method ShowList(model: Model) returns (view: string)
      requires service.Valid()
      modifies this, model
      ensures view == UserListView
      ensures calls == old(calls) + [FindAllCall]
      ensures model.attributes == old(model.attributes)
        [ModelAttributeUsers := Users(service.FindAll())]
        [ModelAttributeSearchCriteria := Criteria(EmptyCriteria)]
    {
      calls := calls + [FindAllCall];
      var users := service.FindAll();
      model.AddAttribute(ModelAttributeUsers, Users(users));
      model.AddAttribute(ModelAttributeSearchCriteria, Criteria(EmptyCriteria));
      view := UserListView;
    }
  }
  /** An empty create form is sent back with both field errors and no
      service call. */
  method EmptyFormScenario()
  {
    var service := new UserService();
    var controller := new UserController(service, (code, params, locale) => code, "en");
    var empty := new UserDTO();
    var attributes := new RedirectAttributes();
    BothNamesMissing(empty.firstName, empty.lastName);
    assert empty.Violations() == {FirstNameField, LastNameField};
    var view := controller.SubmitCreateUserForm(empty, attributes, 7);
    assert view == UserAddFormView && controller.calls == [] && attributes.flash == map[];
  }

  /** Creating "Foo" "Bar" in an empty store gives the first id, stamps both
      times with the same reading, and reports the display name "Foo Bar". */
  method CreateScenario()
  {
    var service := new UserService();
    var messages: MessageSource := (code, params, locale) => code;
    var controller := new UserController(service, messages, "en");
    var created := new UserDTO();
    created.SetFirstName(Some("Foo"));
    created.SetLastName(Some("Bar"));
    var attributes := new RedirectAttributes();
    var view := controller.SubmitCreateUserForm(created, attributes, 7);
    assert view == RedirectToList && controller.calls == [CreateCall(created)];
    assert DisplayName(Some("Foo"), Some("Bar")) == "Foo Bar";
    assert attributes.flash == map[FlashFeedbackMessage := messages(FeedbackUserCreated, ["Foo Bar"], "en")];
    assert service.Rows() == map[1 := UserRow(Some(1), Some(7), Some("Foo"), Some("Bar"), Some(7), 0)];
  }

  /** Deleting the missing id 5 reports the error key, redirects to the
      list and leaves the store as it was. */
  method DeleteMissingScenario(service: UserService)
    requires service.Valid() && 5 !in service.table
    modifies service
  {
    var messages: MessageSource := (code, params, locale) => code;
    var controller := new UserController(service, messages, "en");
    var before := service.Rows();
    var attributes := new RedirectAttributes();
    var view := controller.Delete(5, attributes);
    assert view == RedirectToList && controller.calls == [DeleteCall(5)];
    assert attributes.flash == map[FlashErrorMessage := messages(ErrorDeletedNotFound, [], "en")];
    assert service.Rows() == before;
  }
}

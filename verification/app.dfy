/**
 * The quotation component's state and its event handlers. Every state cell
 * of the component is a field; every handler is a method that overwrites
 * cells. The totals cell is recomputed by an effect after every change of
 * the form, so it is read here as `ShownTotals()`, a function of the form.
 */
module App {
  import opened Lists
  import opened Optional
  import opened Numeric
  import opened Quote
  import opened Totals
  import opened Store
  import opened Session

  class QuoteApp {
    var isLoggedIn: bool
    var loginData: LoginData
    var loginError: string
    var currentUser: string
    var savedQuotes: seq<SavedQuote>
    var showSavedQuotes: bool
    var formData: FormData
    /** The stored collection: `None` while nothing readable has been written. */
    var persisted: Option<seq<SavedQuote>>

    /** Drawn once when the component loads: the first row's id, a quote number, a validity date. */
    const firstItemId: string
    const loadQuoteNumber: string
    const loadValidUntil: string

    /** The defaults the form starts from. */
    function InitialForm(): FormData {
      InitialFormData(firstItemId, loadQuoteNumber, loadValidUntil)
    }

    /** The totals shown beside the form: those of the form as it stands. */
    function ShownTotals(): Figures
      reads this
    {
      ComputeTotals(formData)
    }

    /**
     * Loading the component: logged out, the default form, and the saved
     * quotes read back from storage (none when missing or unreadable).
     */
    constructor (itemId: string, r: real, validUntil: string, stored: Option<seq<SavedQuote>>)
      requires 0.0 <= r < 1.0
      ensures firstItemId == itemId && loadQuoteNumber == FreshQuoteNumber(r) && loadValidUntil == validUntil
      ensures formData == InitialForm() && WellFormedItems(formData.items)
      ensures ShownTotals() == Figures(0.0, 0.0, 0.0, 0.0, 0.0)
      ensures !isLoggedIn && currentUser == "" && loginError == "" && loginData == LoginData("", "", "")
      ensures savedQuotes == LoadAll(stored) && persisted == stored && !showSavedQuotes
    {
      firstItemId := itemId;
      loadQuoteNumber := FreshQuoteNumber(r);
      loadValidUntil := validUntil;
      isLoggedIn := false;
      loginData := LoginData("", "", "");
      loginError := "";
      currentUser := "";
      savedQuotes := LoadAll(stored);
      showSavedQuotes := false;
      persisted := stored;
      new;
      formData := InitialForm();
      InitialFormCostsNothing(firstItemId, loadQuoteNumber, loadValidUntil);
    }

    /** Typing into one of the login form's fields. */
    method EditLogin(field: LoginField, value: string)
      modifies this
      ensures loginData == match field
        case Username => old(loginData).(username := value)
        case Password => old(loginData).(password := value)
        case LoginCompanyName => old(loginData).(companyName := value)
      ensures isLoggedIn == old(isLoggedIn) && currentUser == old(currentUser) && loginError == old(loginError)
      ensures formData == old(formData)
      ensures savedQuotes == old(savedQuotes) && persisted == old(persisted) && showSavedQuotes == old(showSavedQuotes)
    {
      match field
      case Username => loginData := loginData.(username := value);
      case Password => loginData := loginData.(password := value);
      case LoginCompanyName => loginData := loginData.(companyName := value);
    }

    /**
     * Submitting the login form. An allowed pair opens the session for that
     * user, clears the error and, when a company name was typed, puts it on
     * the form; any other pair leaves the session as it was and shows the error.
     */
    method Login()
      modifies this
      ensures var user, pass, company := old(loginData.username), old(loginData.password), old(loginData.companyName);
        if Allowed(user, pass) then
          && isLoggedIn && currentUser == user && loginError == ""
          && formData == (if company != "" then old(formData).(companyName := company) else old(formData))
        else
          && isLoggedIn == old(isLoggedIn) && currentUser == old(currentUser)
          && loginError == InvalidCredentials && formData == old(formData)
      ensures loginData == old(loginData)
      ensures savedQuotes == old(savedQuotes) && persisted == old(persisted) && showSavedQuotes == old(showSavedQuotes)
    {
      LoginSucceedsIff(loginData.username, loginData.password);
      var user := FindUser(Users, loginData.username, loginData.password);
      if user.Some? {
        isLoggedIn := true;
        currentUser := user.value.username;
        loginError := "";
        if loginData.companyName != "" {
          formData := formData.(companyName := loginData.companyName);
        }
      } else {
        loginError := InvalidCredentials;
      }
    }

    /** Logging out closes the session and clears the login form; the quotation stays as it is. */
    method Logout()
      modifies this
      ensures !isLoggedIn && currentUser == "" && loginData == LoginData("", "", "")
      ensures formData == old(formData) && loginError == old(loginError)
      ensures savedQuotes == old(savedQuotes) && persisted == old(persisted) && showSavedQuotes == old(showSavedQuotes)
    {
      isLoggedIn := false;
      currentUser := "";
      loginData := LoginData("", "", "");
    }

    /**
     * Saving: a snapshot of the form, stamped with the clock reading `now`, the
     * date text and the final price shown, goes in front of the collection,
     * and the whole collection is written back to storage. What saving keeps
     * (newest first, well-formed snapshots) is proved of `Store.SaveQuote`.
     */
    method SaveQuote(now: int, date: string)
      modifies this
      ensures savedQuotes == Store.SaveQuote(old(savedQuotes), formData, now, date, ShownTotals().finalPrice)
      ensures persisted == Some(savedQuotes)
      ensures formData == old(formData)
      ensures isLoggedIn == old(isLoggedIn) && currentUser == old(currentUser) && loginData == old(loginData)
      ensures loginError == old(loginError) && showSavedQuotes == old(showSavedQuotes)
    {
      var updated := Store.SaveQuote(savedQuotes, formData, now, date, ShownTotals().finalPrice);
      savedQuotes := updated;
      persisted := Some(updated);
    }

    /** The header button that shows or hides the saved-quote list. */
    method ToggleSavedQuotes()
      modifies this
      ensures showSavedQuotes == !old(showSavedQuotes)
      ensures formData == old(formData)
      ensures savedQuotes == old(savedQuotes) && persisted == old(persisted)
      ensures isLoggedIn == old(isLoggedIn) && currentUser == old(currentUser) && loginData == old(loginData)
      ensures loginError == old(loginError)
    {
      showSavedQuotes := !showSavedQuotes;
    }

    /** Loading a saved quote: the form becomes the snapshot's, verbatim, and the list closes. */
    method LoadQuote(q: SavedQuote)
      modifies this
      ensures formData == Store.LoadQuote(q) && !showSavedQuotes
      ensures q in savedQuotes && SavedFormsWellFormed(savedQuotes) ==> WellFormedItems(formData.items)
      ensures savedQuotes == old(savedQuotes) && persisted == old(persisted)
      ensures isLoggedIn == old(isLoggedIn) && currentUser == old(currentUser) && loginData == old(loginData)
      ensures loginError == old(loginError)
    {
      formData := Store.LoadQuote(q);
      showSavedQuotes := false;
    }

    /** Deleting: every entry with that id leaves the collection, and storage is rewritten. */
    method DeleteQuote(id: int)
      modifies this
      ensures savedQuotes == Store.DeleteQuote(old(savedQuotes), id) && persisted == Some(savedQuotes)
      ensures NewestFirst(old(savedQuotes)) ==> NewestFirst(savedQuotes)
      ensures SavedFormsWellFormed(old(savedQuotes)) ==> SavedFormsWellFormed(savedQuotes)
      ensures formData == old(formData)
      ensures isLoggedIn == old(isLoggedIn) && currentUser == old(currentUser) && loginData == old(loginData)
      ensures loginError == old(loginError) && showSavedQuotes == old(showSavedQuotes)
    {
      var updated := Store.DeleteQuote(savedQuotes, id);
      if NewestFirst(savedQuotes) {
        DeleteKeepsNewestFirst(savedQuotes, id);
      }
      savedQuotes := updated;
      persisted := Some(updated);
    }

    /** Typing into a text field of the form; editing anything but an amount leaves the totals alone. */
    method InputChange(field: FormField, value: string)
      modifies this
      ensures formData == SetField(old(formData), field, value)
      ensures !IsAmountField(field) ==> ShownTotals() == old(ShownTotals())
      ensures savedQuotes == old(savedQuotes) && persisted == old(persisted) && showSavedQuotes == old(showSavedQuotes)
      ensures isLoggedIn == old(isLoggedIn) && currentUser == old(currentUser) && loginData == old(loginData)
      ensures loginError == old(loginError)
    {
      formData := SetField(formData, field, value);
      if !IsAmountField(field) {
        TextFieldKeepsTotals(old(formData), field, value);
      }
    }

    /** A logo file has been read: its data text becomes the logo reference. */
    method LogoLoaded(dataUrl: string)
      modifies this
      ensures formData == old(formData).(logoUrl := dataUrl) && ShownTotals() == old(ShownTotals())
      ensures savedQuotes == old(savedQuotes) && persisted == old(persisted) && showSavedQuotes == old(showSavedQuotes)
      ensures isLoggedIn == old(isLoggedIn) && currentUser == old(currentUser) && loginData == old(loginData)
      ensures loginError == old(loginError)
    {
      formData := formData.(logoUrl := dataUrl);
      TextFieldKeepsTotals(old(formData), LogoUrl, dataUrl);
    }

    /** Editing one field of the row(s) with id `id`; nothing else on the form changes. */
    method ItemChange(id: string, field: ItemField, value: string)
      modifies this
      ensures formData == old(formData).(items := UpdateItem(old(formData.items), id, field, value))
      ensures WellFormedItems(old(formData.items)) ==> WellFormedItems(formData.items)
      ensures field == Description ==> ShownTotals() == old(ShownTotals())
      ensures savedQuotes == old(savedQuotes) && persisted == old(persisted) && showSavedQuotes == old(showSavedQuotes)
      ensures isLoggedIn == old(isLoggedIn) && currentUser == old(currentUser) && loginData == old(loginData)
      ensures loginError == old(loginError)
    {
      var items := formData.items;
      formData := formData.(items := UpdateItem(items, id, field, value));
      if WellFormedItems(items) {
        UpdateItemKeepsWellFormed(items, id, field, value);
      }
      if field == Description {
        DescriptionEditKeepsTotals(old(formData), id, value);
      }
    }

    /** Adding an empty row with the fresh id `newId` at the end; no total moves. */
    method AddItem(newId: string)
      requires !HasKey(formData.items, ItemId, newId)
      modifies this
      ensures formData == old(formData).(items := Quote.AddItem(old(formData.items), newId))
      ensures WellFormedItems(old(formData.items)) ==> WellFormedItems(formData.items)
      ensures ShownTotals() == old(ShownTotals())
      ensures savedQuotes == old(savedQuotes) && persisted == old(persisted) && showSavedQuotes == old(showSavedQuotes)
      ensures isLoggedIn == old(isLoggedIn) && currentUser == old(currentUser) && loginData == old(loginData)
      ensures loginError == old(loginError)
    {
      var items := formData.items;
      formData := formData.(items := Quote.AddItem(items, newId));
      AddItemKeepsTotals(old(formData), newId);
      if WellFormedItems(items) {
        AddItemKeepsWellFormed(items, newId);
      }
    }

    /**
     * Removing the row(s) with id `id`, unless the form shows a single row. A
     * well-formed list keeps at least one row, and loses exactly one when the
     * id is present and there was more than one.
     */
    method RemoveItem(id: string)
      modifies this
      ensures formData == old(formData).(items := Quote.RemoveItem(old(formData.items), id))
      ensures WellFormedItems(old(formData.items)) ==> WellFormedItems(formData.items)
      ensures WellFormedItems(old(formData.items)) && HasKey(old(formData.items), ItemId, id) && |old(formData.items)| > 1
              ==> |formData.items| == |old(formData.items)| - 1
      ensures savedQuotes == old(savedQuotes) && persisted == old(persisted) && showSavedQuotes == old(showSavedQuotes)
      ensures isLoggedIn == old(isLoggedIn) && currentUser == old(currentUser) && loginData == old(loginData)
      ensures loginError == old(loginError)
    {
      var items := formData.items;
      formData := formData.(items := Quote.RemoveItem(items, id));
      if WellFormedItems(items) {
        RemoveItemKeepsWellFormed(items, id);
        if HasKey(items, ItemId, id) && |items| > 1 {
          var j :| 0 <= j < |items| && ItemId(items[j]) == id;
          WithoutUnique(items, ItemId, j);
        }
      }
    }

    /**
     * Starting over: the defaults drawn at load time (same first row, same
     * validity date) with a fresh quote number from the random reading `r`.
     * The totals of that form are all zero (`InitialFormCostsNothing`).
     */
    method Reset(r: real)
      requires 0.0 <= r < 1.0
      modifies this
      ensures formData == InitialFormData(firstItemId, FreshQuoteNumber(r), loadValidUntil)
      ensures WellFormedItems(formData.items)
      ensures savedQuotes == old(savedQuotes) && persisted == old(persisted) && showSavedQuotes == old(showSavedQuotes)
      ensures isLoggedIn == old(isLoggedIn) && currentUser == old(currentUser) && loginData == old(loginData)
      ensures loginError == old(loginError)
    {
      formData := InitialFormData(firstItemId, FreshQuoteNumber(r), loadValidUntil);
    }
  }

  /** Saving and then loading the entry just saved gives back the very same form and totals. */
  method SaveThenLoad(app: QuoteApp, now: int, date: string)
    modifies app
    ensures app.formData == old(app.formData)
    ensures |app.savedQuotes| == |old(app.savedQuotes)| + 1
    ensures app.savedQuotes[0].form == old(app.formData) && app.savedQuotes[1..] == old(app.savedQuotes)
    ensures app.savedQuotes[0].total == old(app.ShownTotals()).finalPrice
  {
    app.SaveQuote(now, date);
    app.LoadQuote(app.savedQuotes[0]);
  }
}

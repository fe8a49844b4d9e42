/**
 * The saved-quote collection ("CMS"): snapshots of the form, newest first,
 * each stamped with the time it was saved and the final price at that time.
 */
module Store {
  import opened Lists
  import opened Optional
  import opened Quote

  /** `{ ...formData, id: Date.now(), date, total }`, kept as the form plus its stamp. */
  datatype SavedQuote = SavedQuote(form: FormData, id: int, date: string, total: real)

  function QuoteId(q: SavedQuote): int {
    q.id
  }

  /** Newest first: every entry was saved strictly later than the ones after it. */
  predicate NewestFirst(quotes: seq<SavedQuote>) {
    forall i, j :: 0 <= i < j < |quotes| ==> quotes[i].id > quotes[j].id
  }

  /** Every saved form shows at least one row and unique row ids. */
  predicate SavedFormsWellFormed(quotes: seq<SavedQuote>) {
    forall q :: q in quotes ==> WellFormedItems(q.form.items)
  }

  /**
   * The collection read at startup: the stored one when it could be read back,
   * otherwise (missing or unreadable) an empty one.
   */
  function LoadAll(stored: Option<seq<SavedQuote>>): (quotes: seq<SavedQuote>)
    ensures stored.None? ==> quotes == []
    ensures stored.Some? ==> quotes == stored.value
  {
    match stored
    case Some(qs) => qs
    case None => []
  }

  /**
   * `[newQuote, ...savedQuotes]`: the snapshot goes in front and the older
   * entries follow unchanged; loading the snapshot gives back the form.
   */
  function SaveQuote(quotes: seq<SavedQuote>, form: FormData, id: int, date: string, total: real): (r: seq<SavedQuote>)
    ensures |r| == |quotes| + 1 && r[1..] == quotes
    ensures r[0].id == id && r[0].date == date && r[0].total == total
    ensures LoadQuote(r[0]) == form
  {
    [SavedQuote(form, id, date, total)] + quotes
  }

  /** `setFormData(quote)`: the form becomes the snapshot's, quote number included. */
  function LoadQuote(q: SavedQuote): FormData {
    q.form
  }

  /** `savedQuotes.filter(q => q.id !== id)` */
  function DeleteQuote(quotes: seq<SavedQuote>, id: int): (r: seq<SavedQuote>)
    ensures forall q :: q in r ==> q in quotes && q.id != id
    ensures forall i :: 0 <= i < |quotes| && quotes[i].id != id ==> quotes[i] in r
  {
    Without(quotes, QuoteId, id)
  }

  lemma NewestFirstUnique(quotes: seq<SavedQuote>)
    requires NewestFirst(quotes)
    ensures UniqueKeys(quotes, QuoteId)
  {
    forall i, j | 0 <= i < j < |quotes| ensures QuoteId(quotes[i]) != QuoteId(quotes[j]) {
      assert quotes[i].id > quotes[j].id;
    }
  }

  /** Saving with a clock reading later than every stored id keeps the collection newest first. */
  lemma SaveKeepsNewestFirst(quotes: seq<SavedQuote>, form: FormData, id: int, date: string, total: real)
    requires NewestFirst(quotes)
    requires forall q :: q in quotes ==> q.id < id
    ensures NewestFirst(SaveQuote(quotes, form, id, date, total))
  {
    var r := SaveQuote(quotes, form, id, date, total);
    forall i, j | 0 <= i < j < |r| ensures r[i].id > r[j].id {
      assert r[j] == quotes[j - 1];
      if i > 0 {
        assert r[i] == quotes[i - 1];
      }
    }
  }

  lemma NewestFirstCons(x: SavedQuote, rest: seq<SavedQuote>)
    requires NewestFirst(rest)
    requires forall y :: y in rest ==> y.id < x.id
    ensures NewestFirst([x] + rest)
  {
    var r := [x] + rest;
    forall i, j | 0 <= i < j < |r| ensures r[i].id > r[j].id {
      assert r[j] == rest[j - 1] && r[j] in rest;
      if i > 0 {
        assert r[i] == rest[i - 1];
      }
    }
  }

  /** Deleting keeps the collection newest first. */
  lemma {:induction false} DeleteKeepsNewestFirst(quotes: seq<SavedQuote>, id: int)
    requires NewestFirst(quotes)
    ensures NewestFirst(DeleteQuote(quotes, id))
  {
    if quotes != [] {
      var tail := quotes[1..];
      assert NewestFirst(tail) by {
        forall i, j | 0 <= i < j < |tail| ensures tail[i].id > tail[j].id {
          assert tail[i] == quotes[i + 1] && tail[j] == quotes[j + 1];
        }
      }
      DeleteKeepsNewestFirst(tail, id);
      var rest := DeleteQuote(tail, id);
      if quotes[0].id != id {
        forall x | x in rest ensures x.id < quotes[0].id {
          var i :| 0 <= i < |tail| && tail[i] == x;
          assert tail[i] == quotes[i + 1];
        }
        NewestFirstCons(quotes[0], rest);
      }
    }
  }

  /**
   * In a newest-first collection, deleting the id of the entry at `j` removes
   * exactly that entry; the others keep their content and their order.
   */
  lemma DeleteQuoteExact(quotes: seq<SavedQuote>, j: int)
    requires NewestFirst(quotes) && 0 <= j < |quotes|
    ensures DeleteQuote(quotes, quotes[j].id) == quotes[..j] + quotes[j + 1..]
  {
    NewestFirstUnique(quotes);
    WithoutUnique(quotes, QuoteId, j);
  }

  /** Deleting an id that no entry carries changes nothing. */
  lemma DeleteQuoteAbsent(quotes: seq<SavedQuote>, id: int)
    requires forall q :: q in quotes ==> q.id != id
    ensures DeleteQuote(quotes, id) == quotes
  {
    assert !HasKey(quotes, QuoteId, id) by {
      forall i | 0 <= i < |quotes| ensures QuoteId(quotes[i]) != id {
        assert quotes[i] in quotes;
      }
    }
    WithoutAbsent(quotes, QuoteId, id);
  }

  /** Deleting the entry just saved under a fresh id gives back the collection as it was. */
  lemma DeleteUndoesSave(quotes: seq<SavedQuote>, form: FormData, id: int, date: string, total: real)
    requires forall q :: q in quotes ==> q.id != id
    ensures DeleteQuote(SaveQuote(quotes, form, id, date, total), id) == quotes
  {
    var r := SaveQuote(quotes, form, id, date, total);
    assert r == [r[0]] + quotes;
    WithoutAppend([r[0]], quotes, QuoteId, id);
    DeleteQuoteAbsent(quotes, id);
  }

  /** Saving a well-formed form and deleting entries keep every saved form well formed. */
  lemma SaveDeleteKeepWellFormed(quotes: seq<SavedQuote>, form: FormData, id: int, date: string, total: real, gone: int)
    requires SavedFormsWellFormed(quotes) && WellFormedItems(form.items)
    ensures SavedFormsWellFormed(SaveQuote(quotes, form, id, date, total))
    ensures SavedFormsWellFormed(DeleteQuote(quotes, gone))
  {
    var r := SaveQuote(quotes, form, id, date, total);
    forall q | q in r ensures WellFormedItems(q.form.items) {
      if q != r[0] {
        assert q in r[1..];
      }
    }
  }
}

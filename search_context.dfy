/**
 * `SearchContext`: the options of one search and the diagnostics the
 * parser leaves in it. Only the first (non-empty) error is kept.
 */
module SearchContexts {
  import opened Common

  /**
   * The caller's search parameters; every one may be absent. (The
   * declaration of the parameter type is not part of this model: the
   * fields are the ones the constructor reads.)
   */
  datatype SearchParams = SearchParams(
    fastSearch: Option<bool>,
    includeArchivedNotes: Option<bool>,
    includeHiddenNotes: Option<bool>,
    ignoreHoistedNote: Option<bool>,
    ancestorNoteId: Option<string>,
    ancestorDepth: Option<string>,
    orderBy: Option<string>,
    orderDirection: Option<string>,
    limit: Option<int>,
    debug: Option<bool>,
    fuzzyAttributeSearch: Option<bool>)

  /** JavaScript's `!!x` on an optional flag. */
  predicate Flag(b: Option<bool>)
  {
    b == Some(true)
  }

  /** The error after one `addError(e)`: set when there was none (or an empty one), kept otherwise. */
  function RecordError(current: Option<string>, e: string): (r: Option<string>)
    ensures Truthy(current) ==> r == current
    ensures !Truthy(current) ==> r == Some(e)
  {
    if Truthy(current) then current else Some(e)
  }

  /** The error after a sequence of `addError` calls, in order. */
  function AfterErrors(current: Option<string>, errors: seq<string>): Option<string>
    decreases errors
  {
    if |errors| == 0 then current else AfterErrors(RecordError(current, errors[0]), errors[1..])
  }

  /** The first non-empty message of `errors`, if any. */
  function FirstMessage(errors: seq<string>): (r: Option<string>)
    ensures r.Some? ==> r.value in errors && r.value != ""
    ensures r.None? ==> forall e | e in errors :: e == ""
  {
    if |errors| == 0 then None
    else if errors[0] != "" then Some(errors[0])
    else
      assert forall e | e in errors :: e == errors[0] || e in errors[1..];
      FirstMessage(errors[1..])
  }

  /**
   * Only the first error is recorded: once there is an error, later calls
   * change nothing; from a context without one, the context ends up with
   * an error exactly when some message is non-empty, and it is the first
   * such message.
   */
  lemma {:induction false} FirstErrorWins(current: Option<string>, errors: seq<string>)
    ensures Truthy(current) ==> AfterErrors(current, errors) == current
    ensures !Truthy(current) && FirstMessage(errors).Some? ==> AfterErrors(current, errors) == FirstMessage(errors)
    ensures !Truthy(current) && FirstMessage(errors).None? ==> !Truthy(AfterErrors(current, errors))
    decreases errors
  {
    if |errors| > 0 {
      FirstErrorWins(RecordError(current, errors[0]), errors[1..]);
    }
  }

  /** `error` went from `before` to `after` by zero or more `addError` calls. */
  predicate ErrorKept(before: Option<string>, after: Option<string>)
  {
    Truthy(before) ==> after == before
  }

  class SearchContext {
    var fastSearch: bool
    var includeArchivedNotes: bool
    var includeHiddenNotes: bool
    var ignoreHoistedNote: bool
    var ancestorNoteId: Option<string>
    var ancestorDepth: Option<string>
    var orderBy: Option<string>
    var orderDirection: Option<string>
    var limit: Option<int>
    var debug: Option<bool>
    var fuzzyAttributeSearch: bool
    var highlightedTokens: seq<string>
    var originalQuery: string
    var fulltextQuery: string
    var dbLoadNeeded: bool
    var error: Option<string>

    /**
     * Flags default to false; without an ancestor (or with an empty one)
     * the search is limited to the hoisted note `hoistedNoteId`, unless
     * `ignoreHoistedNote` is set. A fresh context has no highlighted
     * tokens, an empty query and no error.
     */
    constructor(params: SearchParams, hoistedNoteId: string)
      ensures fastSearch == Flag(params.fastSearch)
      ensures includeArchivedNotes == Flag(params.includeArchivedNotes)
      ensures includeHiddenNotes == Flag(params.includeHiddenNotes)
      ensures ignoreHoistedNote == Flag(params.ignoreHoistedNote)
      ensures fuzzyAttributeSearch == Flag(params.fuzzyAttributeSearch)
      ensures Truthy(params.ancestorNoteId) ==> ancestorNoteId == params.ancestorNoteId
      ensures !Truthy(params.ancestorNoteId) && !Flag(params.ignoreHoistedNote) ==> ancestorNoteId == Some(hoistedNoteId)
      ensures !Truthy(params.ancestorNoteId) && Flag(params.ignoreHoistedNote) ==> ancestorNoteId == params.ancestorNoteId
      ensures ancestorDepth == params.ancestorDepth && orderBy == params.orderBy
      ensures orderDirection == params.orderDirection && limit == params.limit && debug == params.debug
      ensures highlightedTokens == [] && originalQuery == "" && fulltextQuery == ""
      ensures !dbLoadNeeded && error == None && !HasError()
    {
      fastSearch := Flag(params.fastSearch);
      includeArchivedNotes := Flag(params.includeArchivedNotes);
      includeHiddenNotes := Flag(params.includeHiddenNotes);
      ignoreHoistedNote := Flag(params.ignoreHoistedNote);
      ancestorNoteId := if !Truthy(params.ancestorNoteId) && !Flag(params.ignoreHoistedNote)
                        then Some(hoistedNoteId) else params.ancestorNoteId;
      ancestorDepth := params.ancestorDepth;
      orderBy := params.orderBy;
      orderDirection := params.orderDirection;
      limit := params.limit;
      debug := params.debug;
      fuzzyAttributeSearch := Flag(params.fuzzyAttributeSearch);
      highlightedTokens := [];
      originalQuery := "";
      fulltextQuery := "";
      dbLoadNeeded := false;
      error := None;
    }

    /** `addError`: records `e` unless an error is already recorded. */
    method AddError(e: string)
      modifies this`error
      ensures error == RecordError(old(error), e)
    {
      if !Truthy(error) {
        error := Some(e);
      }
    }

    /** `hasError`: an error (a non-empty one) is recorded. */
    predicate HasError()
      reads this
    {
      Truthy(error)
    }

    /** `getError`: the recorded error, or null. */
    function GetError(): Option<string>
      reads this
    {
      error
    }

    /** `highlightedTokens.push(...tokens)`. */
    method Highlight(tokens: seq<string>)
      modifies this`highlightedTokens
      ensures highlightedTokens == old(highlightedTokens) + tokens
    {
      highlightedTokens := highlightedTokens + tokens;
    }
  }

  /**
   * `hasError` after a sequence of `addError` calls on a fresh context:
   * true exactly when one of the messages is non-empty, and `getError` is
   * then the first of them.
   */
  lemma HasErrorAfterCalls(errors: seq<string>)
    ensures Truthy(AfterErrors(None, errors)) <==> exists e :: e in errors && e != ""
    ensures Truthy(AfterErrors(None, errors)) ==> AfterErrors(None, errors) == FirstMessage(errors)
  {
    FirstErrorWins(None, errors);
  }
}

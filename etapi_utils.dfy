/**
 * ETAPI request helpers: entity lookups that fail with a 404 error, and
 * `validateAndPatch`, which checks every property of a request body
 * against the allowed properties and their validators before copying any
 * of them onto the target entity.
 */
module EtapiUtils {
  import opened Common
  import opened NoteGraph

  /** `EtapiError`: an HTTP status, a machine-readable code and a message. */
  datatype EtapiError = EtapiError(statusCode: int, code: string, message: string)

  /** A JSON property value of a request body. */
  datatype JsonValue = JNull | JBool(b: bool) | JNumber(n: int) | JString(s: string)

  /** A validator returns a message when the value is invalid (a falsy result passes). */
  type Validator = JsonValue -> Option<string>

  // ---------------------------------------------------------------------
  // getAndCheck*
  // ---------------------------------------------------------------------

  /** The lookup all four `getAndCheck*` functions share: the entity, or 404 with `<kind> '<id>' not found.`. */
  function GetAndCheck<T>(entities: map<string, T>, id: string, code: string, kind: string): (r: Result<T, EtapiError>)
    ensures r.Ok? <==> id in entities
    ensures r.Ok? ==> r.value == entities[id]
    ensures r.Err? ==> r.error == EtapiError(404, code, kind + " '" + id + "' not found.")
  {
    if id in entities then Ok(entities[id])
    else Err(EtapiError(404, code, kind + " '" + id + "' not found."))
  }

  function GetAndCheckNote(notes: Store, noteId: NoteId): (r: Result<Note, EtapiError>)
    ensures r.Ok? <==> noteId in notes
    ensures r.Ok? ==> r.value == notes[noteId]
    ensures r.Err? ==> r.error == EtapiError(404, "NOTE_NOT_FOUND", "Note '" + noteId + "' not found.")
  {
    GetAndCheck(notes, noteId, "NOTE_NOT_FOUND", "Note")
  }

  function GetAndCheckAttachment<A>(attachments: map<string, A>, attachmentId: string): (r: Result<A, EtapiError>)
    ensures r.Ok? <==> attachmentId in attachments
    ensures r.Ok? ==> r.value == attachments[attachmentId]
    ensures r.Err? ==> r.error == EtapiError(404, "ATTACHMENT_NOT_FOUND", "Attachment '" + attachmentId + "' not found.")
  {
    GetAndCheck(attachments, attachmentId, "ATTACHMENT_NOT_FOUND", "Attachment")
  }

  function GetAndCheckBranch<B>(branches: map<string, B>, branchId: string): (r: Result<B, EtapiError>)
    ensures r.Ok? <==> branchId in branches
    ensures r.Ok? ==> r.value == branches[branchId]
    ensures r.Err? ==> r.error == EtapiError(404, "BRANCH_NOT_FOUND", "Branch '" + branchId + "' not found.")
  {
    GetAndCheck(branches, branchId, "BRANCH_NOT_FOUND", "Branch")
  }

  function GetAndCheckAttribute(attributes: map<string, Attribute>, attributeId: string): (r: Result<Attribute, EtapiError>)
    ensures r.Ok? <==> attributeId in attributes
    ensures r.Ok? ==> r.value == attributes[attributeId]
    ensures r.Err? ==> r.error == EtapiError(404, "ATTRIBUTE_NOT_FOUND", "Attribute '" + attributeId + "' not found.")
  {
    GetAndCheck(attributes, attributeId, "ATTRIBUTE_NOT_FOUND", "Attribute")
  }

  // ---------------------------------------------------------------------
  // validateAndPatch
  // ---------------------------------------------------------------------

  /** The keys of a request body, in `Object.keys` order. */
  function Keys(source: seq<(string, JsonValue)>): seq<string>
  {
    seq(|source|, k requires 0 <= k < |source| => source[k].0)
  }

  /** The first truthy message of the validators on `value`, in order. */
  function FirstFailure(validators: seq<Validator>, value: JsonValue): (r: Option<string>)
    ensures r.Some? ==> Truthy(r) && exists k :: 0 <= k < |validators| && validators[k](value) == r
    ensures r.None? ==> forall k :: 0 <= k < |validators| ==> !Truthy(validators[k](value))
    decreases |validators|
  {
    if |validators| == 0 then None
    else if Truthy(validators[0](value)) then validators[0](value)
    else
      var rest := FirstFailure(validators[1..], value);
      assert forall k :: 1 <= k < |validators| ==> validators[k] == validators[1..][k - 1];
      rest
  }

  /** The error of the first property, in order, that is not allowed or fails a validator. */
  function Validate(source: seq<(string, JsonValue)>, allowed: map<string, seq<Validator>>): (r: Result<(), EtapiError>)
    decreases |source|
  {
    if |source| == 0 then Ok(())
    else
      var (key, value) := source[0];
      if key !in allowed then
        Err(EtapiError(400, "PROPERTY_NOT_ALLOWED", "Property '" + key + "' is not allowed for this method."))
      else
        var failure := FirstFailure(allowed[key], value);
        if failure.Some? then
          Err(EtapiError(400, "PROPERTY_VALIDATION_ERROR", "Validation failed on property '" + key + "': " + failure.value + "."))
        else Validate(source[1..], allowed)
  }

  /** Every property is allowed and passes all its validators. */
  predicate AllValid(source: seq<(string, JsonValue)>, allowed: map<string, seq<Validator>>)
  {
    forall k | 0 <= k < |source| :: source[k].0 in allowed && FirstFailure(allowed[source[k].0], source[k].1).None?
  }

  /**
   * Validation passes exactly when every property is allowed and valid;
   * a failure is a 400 error, with `PROPERTY_NOT_ALLOWED` for a property
   * outside the allowed set and `PROPERTY_VALIDATION_ERROR` otherwise.
   */
  lemma {:induction false} ValidateMeaning(source: seq<(string, JsonValue)>, allowed: map<string, seq<Validator>>)
    ensures Validate(source, allowed).Ok? <==> AllValid(source, allowed)
    ensures Validate(source, allowed).Err? ==>
              Validate(source, allowed).error.statusCode == 400
              && Validate(source, allowed).error.code in {"PROPERTY_NOT_ALLOWED", "PROPERTY_VALIDATION_ERROR"}
    ensures (exists k | 0 <= k < |source| :: source[k].0 !in allowed) && (forall k | 0 <= k < |source| :: source[k].0 in allowed ==> FirstFailure(allowed[source[k].0], source[k].1).None?)
            ==> Validate(source, allowed).Err? && Validate(source, allowed).error.code == "PROPERTY_NOT_ALLOWED"
    decreases |source|
  {
    if |source| > 0 {
      ValidateMeaning(source[1..], allowed);
      assert forall k | 1 <= k < |source| :: source[k] == source[1..][k - 1];
      if (exists k | 0 <= k < |source| :: source[k].0 !in allowed) && source[0].0 in allowed {
        var k :| 0 <= k < |source| && source[k].0 !in allowed;
        assert source[1..][k - 1].0 !in allowed;
      }
    }
  }

  /** The target after copying every property of `source` onto it, in order. */
  function Patched(props: map<string, JsonValue>, source: seq<(string, JsonValue)>): map<string, JsonValue>
    decreases |source|
  {
    if |source| == 0 then props else Patched(props[source[0].0 := source[0].1], source[1..])
  }

  /** Object keys are distinct. */
  predicate DistinctKeys(source: seq<(string, JsonValue)>)
  {
    forall i, j | 0 <= i < j < |source| :: source[i].0 != source[j].0
  }

  /**
   * The patched target holds every source property's value and keeps every
   * other property as it was.
   */
  lemma {:induction false} PatchedMeaning(props: map<string, JsonValue>, source: seq<(string, JsonValue)>)
    requires DistinctKeys(source)
    ensures Patched(props, source).Keys == props.Keys + set k | 0 <= k < |source| :: source[k].0
    ensures forall k | 0 <= k < |source| :: Patched(props, source)[source[k].0] == source[k].1
    ensures forall key | key in props && key !in Keys(source) :: Patched(props, source)[key] == props[key]
    decreases |source|
  {
    if |source| > 0 {
      var rest := source[1..];
      PatchedMeaning(props[source[0].0 := source[0].1], rest);
      assert forall k | 1 <= k < |source| :: source[k] == rest[k - 1];
      assert (set k | 0 <= k < |source| :: source[k].0) == {source[0].0} + set k | 0 <= k < |rest| :: rest[k].0;
      forall key | key in props && key !in Keys(source)
        ensures Patched(props, source)[key] == props[key]
      {
        assert Keys(source)[0] == source[0].0;
        assert forall k | 0 <= k < |rest| :: Keys(rest)[k] == Keys(source)[k + 1];
      }
    }
  }

  /** The entity a route patches, changed in place. */
  class PatchTarget {
    var props: map<string, JsonValue>

    constructor(props: map<string, JsonValue>)
      ensures this.props == props
    {
      this.props := props;
    }

    /**
     * `validateAndPatch`: validates every property of `source` (in order,
     * the first failure being the error) and only then copies them all;
     * a failed call leaves the target unchanged.
     */
    method ValidateAndPatch(source: seq<(string, JsonValue)>, allowed: map<string, seq<Validator>>) returns (r: Result<(), EtapiError>)
      modifies this
      ensures r == Validate(source, allowed)
      ensures r.Err? ==> props == old(props)
      ensures r.Ok? ==> props == Patched(old(props), source)
    {
      r := ValidateAll(source, allowed);
      if r.Err? {
        return;
      }
      for k := 0 to |source|
        invariant Patched(props, source[k..]) == Patched(old(props), source)
      {
        assert source[k..][1..] == source[k + 1..];
        props := props[source[k].0 := source[k].1];
      }
      assert source[|source|..] == [];
    }
  }

  /** The validation loop of `validateAndPatch`: over the properties, then over each one's validators. */
  method ValidateAll(source: seq<(string, JsonValue)>, allowed: map<string, seq<Validator>>) returns (r: Result<(), EtapiError>)
    ensures r == Validate(source, allowed)
  {
    for k := 0 to |source|
      invariant Validate(source, allowed) == Validate(source[k..], allowed)
    {
      assert source[k..][1..] == source[k + 1..];
      var (key, value) := source[k];
      if key !in allowed {
        return Err(EtapiError(400, "PROPERTY_NOT_ALLOWED", "Property '" + key + "' is not allowed for this method."));
      }
      var validators := allowed[key];
      for v := 0 to |validators|
        invariant FirstFailure(validators, value) == FirstFailure(validators[v..], value)
      {
        assert validators[v..][1..] == validators[v + 1..];
        var validationResult := validators[v](value);
        if Truthy(validationResult) {
          return Err(EtapiError(400, "PROPERTY_VALIDATION_ERROR",
                                "Validation failed on property '" + key + "': " + validationResult.value + "."));
        }
      }
      assert validators[|validators|..] == [];
    }
    assert source[|source|..] == [];
    return Ok(());
  }
}

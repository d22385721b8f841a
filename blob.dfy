/**
 * Blob content as the API hands it out: protected content is decrypted
 * only inside a protected session and is empty outside one, a missing
 * string reads as the empty string and a missing binary as an empty buffer.
 * The protected session, the decryption and the UTF-8 decoding of buffers
 * are parameters.
 */
module Blob {
  import opened Common

  /** A blob's content column: a string, a buffer, or null. */
  datatype Content = Text(text: string) | Bytes(bytes: seq<bv8>) | Null

  /**
   * `processContent`: decrypt (or blank) protected content, then read it as
   * a string when the entity holds string content, else as a buffer.
   */
  function ProcessContent(content: Content, isProtected: bool, isStringContent: bool,
                          sessionAvailable: bool, decrypt: Content -> Content,
                          utf8: seq<bv8> -> string): (r: Content)
    ensures r != Null
    ensures isStringContent ==> r.Text?
    ensures isProtected && !sessionAvailable ==> r == Text("")
    ensures !isProtected && content == Null ==> r == (if isStringContent then Text("") else Bytes([]))
    ensures !isProtected && content.Text? ==> r == content
    ensures !isProtected && content.Bytes? && !isStringContent ==> r == content
    ensures !isProtected && content.Bytes? && isStringContent ==> r == Text(utf8(content.bytes))
  {
    var plain :=
      if isProtected then
        if sessionAvailable then (if content == Null then Null else decrypt(content))
        else Text("")
      else content;
    if isStringContent then
      match plain
      case Null => Text("")
      case Text(s) => Text(s)
      case Bytes(b) => Text(utf8(b))
    else
      if plain == Null then Bytes([]) else plain
  }

  /**
   * Unprotected content never reaches the decryption: the result does not
   * depend on the decryption or on whether a protected session is open.
   */
  lemma UnprotectedIgnoresDecrypt(content: Content, isStringContent: bool, utf8: seq<bv8> -> string,
                                  available1: bool, decrypt1: Content -> Content,
                                  available2: bool, decrypt2: Content -> Content)
    ensures ProcessContent(content, false, isStringContent, available1, decrypt1, utf8)
            == ProcessContent(content, false, isStringContent, available2, decrypt2, utf8)
  {
  }

  /**
   * In a protected session, protected content is what decryption gives,
   * read the same way as unprotected content; null stays null.
   */
  lemma ProtectedIsDecrypted(content: Content, isStringContent: bool, decrypt: Content -> Content,
                             utf8: seq<bv8> -> string, otherDecrypt: Content -> Content)
    ensures ProcessContent(content, true, isStringContent, true, decrypt, utf8)
            == ProcessContent(if content == Null then Null else decrypt(content), false, isStringContent,
                              false, otherDecrypt, utf8)
  {
  }

  /**
   * Processing is idempotent on unprotected content: what comes out is
   * already in the form processing produces.
   */
  lemma ProcessIdempotent(content: Content, isStringContent: bool, sessionAvailable: bool,
                          decrypt: Content -> Content, utf8: seq<bv8> -> string)
    ensures var once := ProcessContent(content, false, isStringContent, sessionAvailable, decrypt, utf8);
            ProcessContent(once, false, isStringContent, sessionAvailable, decrypt, utf8) == once
  {
  }

  /** The entity a blob belongs to: a note, an attachment or a revision. */
  datatype Entity = Entity(blobId: string, isProtected: bool, hasStringContent: bool)

  /** A stored blob row. */
  datatype BlobRow = BlobRow(blobId: string, content: Content, contentLength: nat,
                             dateModified: string, utcDateModified: string)

  /** `blob.getPojo()`, with the content replaced as `getBlobPojo` does. */
  datatype BlobPojo = BlobPojo(blobId: string, content: Content, contentLength: nat,
                               dateModified: string, utcDateModified: string)

  /** `NotFoundError`, with its message. */
  datatype NotFound = NotFound(message: string)

  /**
   * `getBlobPojo`: the entity is looked up by the caller (`entity` is
   * `becca.getEntity(entityName, entityId)`), its blob among `blobs`.
   */
  function GetBlobPojo(entityName: string, entityId: string, entity: Option<Entity>,
                       blobs: map<string, BlobRow>, sessionAvailable: bool,
                       decrypt: Content -> Content, utf8: seq<bv8> -> string): (r: Result<BlobPojo, NotFound>)
    ensures entity.None? ==> r == Err(NotFound("Entity " + entityName + " '" + entityId + "' was not found."))
    ensures entity.Some? && entity.value.blobId !in blobs ==>
              r == Err(NotFound("Blob " + entity.value.blobId + " for " + entityName + " '" + entityId + "' was not found."))
    ensures r.Ok? <==> entity.Some? && entity.value.blobId in blobs
    ensures r.Ok? ==> var row := blobs[entity.value.blobId];
                      r.value.blobId == row.blobId && r.value.contentLength == row.contentLength
                      && r.value.dateModified == row.dateModified && r.value.utcDateModified == row.utcDateModified
    ensures r.Ok? ==> (r.value.content == Null <==> !entity.value.hasStringContent)
    ensures r.Ok? && entity.value.hasStringContent ==>
              r.value.content == ProcessContent(blobs[entity.value.blobId].content, entity.value.isProtected, true,
                                                sessionAvailable, decrypt, utf8)
  {
    match entity
    case None => Err(NotFound("Entity " + entityName + " '" + entityId + "' was not found."))
    case Some(e) =>
      if e.blobId !in blobs then
        Err(NotFound("Blob " + e.blobId + " for " + entityName + " '" + entityId + "' was not found."))
      else
        var row := blobs[e.blobId];
        var content := if !e.hasStringContent then Null
                       else ProcessContent(row.content, e.isProtected, true, sessionAvailable, decrypt, utf8);
        Ok(BlobPojo(row.blobId, content, row.contentLength, row.dateModified, row.utcDateModified))
  }

  /** Outside a protected session a protected note's content reads as empty. */
  lemma ProtectedNoteWithoutSession(entityName: string, entityId: string, e: Entity, blobs: map<string, BlobRow>,
                                    decrypt: Content -> Content, utf8: seq<bv8> -> string)
    requires e.isProtected && e.hasStringContent && e.blobId in blobs
    ensures GetBlobPojo(entityName, entityId, Some(e), blobs, false, decrypt, utf8).Ok?
    ensures GetBlobPojo(entityName, entityId, Some(e), blobs, false, decrypt, utf8).value.content == Text("")
  {
  }
}

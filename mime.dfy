/**
 * Content extraction (email-backup/email_common.py, duplicated verbatim in
 * email-backup/backup.py): plain-text body, attachment records and files,
 * the date epoch, the message key and the raw-file bucket.
 *
 * A decoded message is the sequence of parts that `msg.walk()` visits
 * (the multipart tree of section 5.1 of RFC 2046 in depth-first order, root
 * container first). SHA-256, charset decoding and date parsing are library
 * routines; they enter as the fields of a `Library` value.
 */
module Mime {
  import opened Wrappers
  import opened Text
  import opened Files

  predicate IsHexDigit(c: char) { '0' <= c <= '9' || 'a' <= c <= 'f' }

  /** The text of `hashlib.sha256(...).hexdigest()`: 64 lower-case hex digits. */
  type Digest = s: string | |s| == 64 && forall i | 0 <= i < |s| :: IsHexDigit(s[i])
    witness seq(64, i => '0')

  /** The text of `strftime("%Y/%m")`. */
  type YearMonth = s: string | |s| == 7 && s[4] == '/' witness "1970/01"

  /** Library routines the extraction calls and whose internals are not modelled. */
  datatype Library = Library(
    /** `hashlib.sha256(payload).hexdigest()` */
    sha256Hex: Bytes -> Digest,
    /** `hashlib.sha256(text.encode()).hexdigest()` */
    sha256TextHex: string -> Digest,
    /** `payload.decode(charset, errors="replace")`; `None` when the codec lookup raises `LookupError` */
    decode: (Bytes, string) -> Option<string>,
    /** `payload.decode("utf-8", errors="replace")`, which never raises */
    decodeUtf8: Bytes -> string,
    /** `int(email.utils.parsedate_to_datetime(s).timestamp())`; `None` when it raises */
    parseDate: string -> Option<int>,
    /** `datetime.fromtimestamp(epoch, tz=timezone.utc).strftime("%Y/%m")` */
    yearMonth: int -> YearMonth)

  /**
   * One node of the walk: its content type, `get_filename()`,
   * `get_payload(decode=True)` (empty for a container, whose payload is
   * `None`) and `get_content_charset()`.
   */
  datatype Part = Part(contentType: string, filename: Option<string>, payload: Bytes, charset: Option<string>)

  datatype Body = SinglePart(part: Part) | Multipart(walk: seq<Part>)

  /** The headers the archiver reads; `None` when the header is absent. */
  datatype Headers = Headers(
    messageId: Option<string>, subject: Option<string>, from: Option<string>,
    to: Option<string>, date: Option<string>)

  datatype Email = Email(headers: Headers, body: Body)

  /** `msg.walk()`: a single-part message visits only itself. */
  function Walk(b: Body): seq<Part> {
    match b
    case SinglePart(p) => [p]
    case Multipart(w) => w
  }

  /** `part.get_filename()` is truthy. */
  predicate Named(p: Part) {
    p.filename.Some? && p.filename.value != ""
  }

  /** `part.get_content_charset() or "utf-8"` */
  function CharsetOf(p: Part): string {
    if p.charset.Some? && p.charset.value != "" then p.charset.value else "utf-8"
  }

  /** Decoding with the declared charset, falling back to UTF-8 when the charset is unknown. */
  function DecodePart(lib: Library, p: Part): (r: string)
    ensures lib.decode(p.payload, CharsetOf(p)).None? ==> r == lib.decodeUtf8(p.payload)
  {
    match lib.decode(p.payload, CharsetOf(p))
    case Some(text) => text
    case None => lib.decodeUtf8(p.payload)
  }

  // ---------------------------------------------------------------- body text

  /** A part that contributes to the body of a multipart message. */
  predicate IsBodyPart(p: Part) {
    p.contentType == "text/plain" && !Named(p) && p.payload != []
  }

  /** The decoded texts of the body parts, in walk order. */
  function BodyPieces(lib: Library, walk: seq<Part>): seq<string> {
    if walk == [] then []
    else
      var head := if IsBodyPart(walk[0]) then [DecodePart(lib, walk[0])] else [];
      head + BodyPieces(lib, walk[1..])
  }

  /** What `extract_body_text` returns. */
  function BodyText(lib: Library, e: Email): string {
    match e.body
    case Multipart(walk) => Join("\n", BodyPieces(lib, walk))
    case SinglePart(p) => if p.payload != [] then DecodePart(lib, p) else ""
  }

  lemma {:induction false} BodyPiecesAppend(lib: Library, a: seq<Part>, b: seq<Part>)
    ensures BodyPieces(lib, a + b) == BodyPieces(lib, a) + BodyPieces(lib, b)
  {
    if a == [] {
      assert a + b == b;
    } else {
      assert (a + b)[1..] == a[1..] + b;
      BodyPiecesAppend(lib, a[1..], b);
    }
  }

  /**
   * Parts that are not body parts (containers, HTML, named attachments,
   * empty payloads) can be added anywhere in the walk without changing the
   * body text.
   */
  lemma BodyIgnoresOtherParts(lib: Library, h: Headers, a: seq<Part>, p: Part, b: seq<Part>)
    requires !IsBodyPart(p)
    ensures BodyText(lib, Email(h, Multipart(a + [p] + b))) == BodyText(lib, Email(h, Multipart(a + b)))
  {
    assert BodyPieces(lib, [p]) == [] by {
      assert [p][1..] == [];
    }
    BodyPiecesAppend(lib, a + [p], b);
    BodyPiecesAppend(lib, a, [p]);
    BodyPiecesAppend(lib, a, b);
    assert BodyPieces(lib, a + [p] + b) == BodyPieces(lib, a + b);
  }

  /** At most one piece per part; none when no part is a body part. */
  lemma {:induction false} BodyPiecesCount(lib: Library, walk: seq<Part>)
    ensures |BodyPieces(lib, walk)| <= |walk|
    ensures (forall i :: 0 <= i < |walk| ==> !IsBodyPart(walk[i])) ==> BodyPieces(lib, walk) == []
  {
    if walk != [] {
      BodyPiecesCount(lib, walk[1..]);
    }
  }

  /**
   * A multipart message with one body part has exactly that part's decoded
   * text as its body (no separator); with none its body is empty.
   */
  lemma OneBodyPart(lib: Library, h: Headers, a: seq<Part>, p: Part, b: seq<Part>)
    requires IsBodyPart(p)
    requires forall i :: 0 <= i < |a| ==> !IsBodyPart(a[i])
    requires forall i :: 0 <= i < |b| ==> !IsBodyPart(b[i])
    ensures BodyText(lib, Email(h, Multipart(a + [p] + b))) == DecodePart(lib, p)
  {
    BodyPiecesAppend(lib, a + [p], b);
    BodyPiecesAppend(lib, a, [p]);
    BodyPiecesCount(lib, a);
    BodyPiecesCount(lib, b);
  }

  /** `extract_body_text`: collects the decoded body parts in a list, then joins them with newlines. */
  method ExtractBodyText(lib: Library, e: Email) returns (text: string)
    ensures text == BodyText(lib, e)
    ensures e.body.SinglePart? && e.body.part.payload == [] ==> text == ""
    ensures e.body.Multipart? && (forall i :: 0 <= i < |e.body.walk| ==> !IsBodyPart(e.body.walk[i])) ==> text == ""
  {
    match e.body {
      case Multipart(walk) =>
        var parts: seq<string> := [];
        for i := 0 to |walk|
          invariant parts == BodyPieces(lib, walk[..i])
        {
          BodyPiecesAppend(lib, walk[..i], [walk[i]]);
          assert walk[..i + 1] == walk[..i] + [walk[i]];
          var part := walk[i];
          if part.contentType == "text/plain" && !Named(part) {
            if part.payload != [] {
              parts := parts + [DecodePart(lib, part)];
            }
          }
        }
        assert walk[..|walk|] == walk;
        BodyPiecesCount(lib, walk);
        text := Join("\n", parts);
      case SinglePart(p) =>
        if p.payload != [] {
          text := DecodePart(lib, p);
        } else {
          text := "";
        }
    }
  }

  // ---------------------------------------------------------------- attachments

  /** A character `isalnum()` or one of `.-_ ` is kept; any other becomes `_`. */
  predicate SafeChar(c: char) {
    IsAlnum(c) || c == '.' || c == '-' || c == '_' || c == ' '
  }

  /** The filename sanitiser of `extract_attachments`. */
  function SafeFilename(name: string): string {
    if name == [] then [] else [if SafeChar(name[0]) then name[0] else '_'] + SafeFilename(name[1..])
  }

  /**
   * The sanitised name has the length of the original, each of its
   * characters is safe, and each safe character of the original is kept at
   * its position.
   */
  lemma {:induction false} SafeFilenameShape(name: string)
    ensures |SafeFilename(name)| == |name|
    ensures forall i :: 0 <= i < |name| ==> SafeChar(SafeFilename(name)[i])
    ensures forall i :: 0 <= i < |name| ==> (SafeFilename(name)[i] == name[i] <==> SafeChar(name[i]))
  {
    if name != [] {
      SafeFilenameShape(name[1..]);
      var r := SafeFilename(name);
      assert forall i :: 1 <= i < |name| ==> r[i] == SafeFilename(name[1..])[i - 1];
    }
  }

  /** A name made only of safe characters is left unchanged; so sanitising twice is sanitising once. */
  lemma {:induction false} SafeFilenameIdempotent(name: string)
    ensures (forall i :: 0 <= i < |name| ==> SafeChar(name[i])) ==> SafeFilename(name) == name
    ensures SafeFilename(SafeFilename(name)) == SafeFilename(name)
    decreases |name|
  {
    if name != [] {
      SafeFilenameIdempotent(name[1..]);
      SafeFilenameShape(name);
      var r := SafeFilename(name);
      assert r[1..] == SafeFilename(name[1..]);
      SafeFilenameIdempotent(r[1..]);
      SafeFilenameShape(r[1..]);
    }
  }

  /** `message_id[:2]`: Python slicing keeps a shorter key whole. */
  function Prefix2(key: string): (r: string)
    ensures |key| >= 2 ==> |r| == 2 && r == key[..2]
    ensures |key| < 2 ==> r == key
  {
    if |key| >= 2 then key[..2] else key
  }

  /** `ATTACHMENTS_PATH / message_id[:2] / message_id` */
  function AttachmentDir(attachmentsRoot: string, key: string): string {
    attachmentsRoot + "/" + Prefix2(key) + "/" + key
  }

  /** The secondary export target: `PAPERLESS_CONSUME_DIR` and whether that directory exists. */
  datatype Export = Export(consumeDir: string, consumeDirExists: bool)

  predicate Exports(x: Export) {
    x.consumeDir != "" && x.consumeDirExists
  }

  /** One dictionary appended by `extract_attachments`. */
  datatype AttachmentRecord = AttachmentRecord(
    filename: string, contentType: string, sizeBytes: nat, sha256: Digest,
    localPath: string, paperlessExported: bool)

  /** A part that `extract_attachments` keeps: it has a filename and a non-empty payload. */
  predicate IsAttachment(p: Part) {
    Named(p) && p.payload != []
  }

  function RecordOf(lib: Library, root: string, key: string, x: Export, p: Part): AttachmentRecord
    requires IsAttachment(p)
  {
    AttachmentRecord(
      p.filename.value, p.contentType, |p.payload|, lib.sha256Hex(p.payload),
      AttachmentDir(root, key) + "/" + SafeFilename(p.filename.value), Exports(x))
  }

  /** The files one attachment part writes: its copy under the key, then the export copy. */
  function WritesOf(root: string, key: string, x: Export, p: Part): seq<FileWrite>
    requires IsAttachment(p)
  {
    var safe := SafeFilename(p.filename.value);
    [FileWrite(AttachmentDir(root, key) + "/" + safe, p.payload)]
      + (if Exports(x) then [FileWrite(x.consumeDir + "/" + key + "_" + safe, p.payload)] else [])
  }

  function AttachmentRecords(lib: Library, root: string, key: string, x: Export, walk: seq<Part>): seq<AttachmentRecord> {
    if walk == [] then []
    else
      var head := if IsAttachment(walk[0]) then [RecordOf(lib, root, key, x, walk[0])] else [];
      head + AttachmentRecords(lib, root, key, x, walk[1..])
  }

  function AttachmentWrites(root: string, key: string, x: Export, walk: seq<Part>): seq<FileWrite> {
    if walk == [] then []
    else
      var head := if IsAttachment(walk[0]) then WritesOf(root, key, x, walk[0]) else [];
      head + AttachmentWrites(root, key, x, walk[1..])
  }

  /** Records come out in walk order: the records of a walk are those of its halves, concatenated. */
  lemma {:induction false} AttachmentsAppend(lib: Library, root: string, key: string, x: Export, a: seq<Part>, b: seq<Part>)
    ensures AttachmentRecords(lib, root, key, x, a + b)
         == AttachmentRecords(lib, root, key, x, a) + AttachmentRecords(lib, root, key, x, b)
    ensures AttachmentWrites(root, key, x, a + b) == AttachmentWrites(root, key, x, a) + AttachmentWrites(root, key, x, b)
  {
    if a == [] {
      assert a + b == b;
    } else {
      assert (a + b)[1..] == a[1..] + b;
      AttachmentsAppend(lib, root, key, x, a[1..], b);
    }
  }

  /**
   * Every record describes a named part with a non-empty payload: its size
   * is positive, its local path is `root/key[:2]/key/safe_filename`, and it
   * is flagged as exported exactly when the export directory is configured
   * and exists. A walk without such parts yields no record.
   */
  lemma {:induction false} AttachmentRecordsSound(lib: Library, root: string, key: string, x: Export, walk: seq<Part>)
    ensures |AttachmentRecords(lib, root, key, x, walk)| <= |walk|
    ensures forall r :: r in AttachmentRecords(lib, root, key, x, walk) ==>
      && r.filename != ""
      && r.sizeBytes > 0
      && r.localPath == AttachmentDir(root, key) + "/" + SafeFilename(r.filename)
      && r.paperlessExported == (x.consumeDir != "" && x.consumeDirExists)
    ensures (forall i :: 0 <= i < |walk| ==> !IsAttachment(walk[i])) ==> AttachmentRecords(lib, root, key, x, walk) == []
  {
    if walk != [] {
      AttachmentRecordsSound(lib, root, key, x, walk[1..]);
    }
  }

  /** Each record's size is that of the payload it was made from, and its digest is the payload's. */
  lemma RecordOfPart(lib: Library, root: string, key: string, x: Export, p: Part)
    requires IsAttachment(p)
    ensures AttachmentRecords(lib, root, key, x, [p]) == [RecordOf(lib, root, key, x, p)]
    ensures RecordOf(lib, root, key, x, p).sizeBytes == |p.payload|
    ensures RecordOf(lib, root, key, x, p).sha256 == lib.sha256Hex(p.payload)
  {
    assert [p][1..] == [];
  }

  /**
   * `extract_attachments`: walks the parts, writes each attachment under
   * the key's directory (and into the export directory when it is
   * configured and exists), and returns the records in walk order.
   */
  method ExtractAttachments(lib: Library, e: Email, root: string, key: string, x: Export, disk: Disk)
    returns (attachments: seq<AttachmentRecord>)
    modifies disk
    ensures attachments == AttachmentRecords(lib, root, key, x, Walk(e.body))
    ensures disk.files == ApplyWrites(old(disk.files), AttachmentWrites(root, key, x, Walk(e.body)))
  {
    var walk := Walk(e.body);
    attachments := [];
    for i := 0 to |walk|
      invariant attachments == AttachmentRecords(lib, root, key, x, walk[..i])
      invariant disk.files == ApplyWrites(old(disk.files), AttachmentWrites(root, key, x, walk[..i]))
    {
      var part := walk[i];
      ghost var before := disk.files;
      AttachmentsAppend(lib, root, key, x, walk[..i], [part]);
      assert walk[..i + 1] == walk[..i] + [part];
      assert [part][1..] == [];
      ApplyWritesAppend(old(disk.files), AttachmentWrites(root, key, x, walk[..i]), AttachmentWrites(root, key, x, [part]));
      if part.filename.None? || part.filename.value == "" {
        continue;
      }
      var contentType := part.contentType;
      var payload := part.payload;
      if payload == [] {
        continue;
      }
      var sha256 := lib.sha256Hex(payload);
      var attDir := AttachmentDir(root, key);
      var safeFilename := SafeFilename(part.filename.value);
      var localPath := attDir + "/" + safeFilename;
      disk.WriteBytes(localPath, payload);
      ghost var local := FileWrite(localPath, payload);
      ghost var exported := FileWrite(x.consumeDir + "/" + key + "_" + safeFilename, payload);
      ApplyWritesOne(before, local);
      var paperlessExported := false;
      if x.consumeDir != "" {
        if x.consumeDirExists {
          ghost var afterLocal := disk.files;
          disk.WriteBytes(x.consumeDir + "/" + key + "_" + safeFilename, payload);
          paperlessExported := true;
          ApplyWritesOne(afterLocal, exported);
          ApplyWritesAppend(before, [local], [exported]);
        }
      }
      assert WritesOf(root, key, x, part) == [local] + (if Exports(x) then [exported] else []);
      assert disk.files == ApplyWrites(before, WritesOf(root, key, x, part));
      attachments := attachments + [AttachmentRecord(
        part.filename.value, contentType, |payload|, sha256, localPath, paperlessExported)];
    }
    assert walk[..|walk|] == walk;
  }

  // ---------------------------------------------------------------- dates and keys

  /** `parse_date_epoch`: an empty or unparsable date gives 0, never an error. */
  function ParseDateEpoch(lib: Library, date: string): (epoch: int)
    ensures date == "" ==> epoch == 0
    ensures date != "" && lib.parseDate(date).None? ==> epoch == 0
    ensures epoch != 0 ==> lib.parseDate(date) == Some(epoch)
    ensures date != "" && lib.parseDate(date).Some? ==> epoch == lib.parseDate(date).value
  {
    if date == "" then 0
    else match lib.parseDate(date)
      case Some(t) => t
      case None => 0
  }

  /** `hashlib.sha256(message_id.encode()).hexdigest()[:16]`: 16 hex digits. */
  function MessageKey(lib: Library, messageId: string): (key: string)
    ensures |key| == 16 && forall i :: 0 <= i < 16 ==> IsHexDigit(key[i])
    ensures key == lib.sha256TextHex(messageId)[..16]
  {
    lib.sha256TextHex(messageId)[..16]
  }

  /** The directory under `raw/` for a message: its year and month, or `unknown` when the epoch is 0. */
  function RawBucket(lib: Library, epoch: int): (bucket: string)
    ensures bucket == "unknown" <==> epoch == 0
    ensures epoch != 0 ==> |bucket| == 7 && bucket[4] == '/'
  {
    if epoch != 0 then lib.yearMonth(epoch) else "unknown"
  }
}

/**
 * The `multipart/form-data` upload body that `transcribe` assembles: the
 * declarative layout of a part and of a whole body (section 4 of RFC 7578:
 * a `--boundary` line, a Content-Disposition header, an optional
 * Content-Type header, a blank line, the content and a line break; then
 * `--boundary--`), and the `Data` helpers that append a part piece by
 * piece.
 */
module Multipart {
  import opened Wrappers
  import opened Utf8

  const CRLF := "\r\n"

  /** A form field: a text value, or a file with its name, media type and bytes. */
  datatype Part =
    | TextField(name: string, value: string)
    | FileField(name: string, filename: string, mimeType: string, data: seq<byte>)

  /** The line that opens every part. */
  function DelimiterLine(boundary: string): string {
    "--" + boundary + CRLF
  }

  /** The line that ends the body. */
  function CloseDelimiter(boundary: string): string {
    "--" + boundary + "--" + CRLF
  }

  /** The Content-Disposition header line of a text field, followed by the blank line. */
  function TextDisposition(name: string): string {
    "Content-Disposition: form-data; name=\"" + name + "\"" + CRLF + CRLF
  }

  /** The Content-Disposition header line of a file field. */
  function FileDisposition(name: string, filename: string): string {
    "Content-Disposition: form-data; name=\"" + name + "\"; filename=\"" + filename + "\"" + CRLF
  }

  /** The Content-Type header line of a file field, followed by the blank line. */
  function ContentTypeLine(mimeType: string): string {
    "Content-Type: " + mimeType + CRLF + CRLF
  }

  /** The header block of a part, from its delimiter line up to and including the blank line. */
  function Head(boundary: string, part: Part): string {
    match part
    case TextField(name, _) => DelimiterLine(boundary) + TextDisposition(name)
    case FileField(name, filename, mimeType, _) =>
      DelimiterLine(boundary) + FileDisposition(name, filename) + ContentTypeLine(mimeType)
  }

  /** The content of a part: a text value in UTF-8, a file's bytes unchanged. */
  function Content(part: Part): seq<byte> {
    match part
    case TextField(_, value) => Encode(value)
    case FileField(_, _, _, data) => data
  }

  /** The bytes of one part: its header block, its content and a line break. */
  function PartBytes(boundary: string, part: Part): seq<byte> {
    Encode(Head(boundary, part)) + Content(part) + Encode(CRLF)
  }

  /** The images of `xs` under `f`, one after another, in order. */
  function FlattenMap<X>(f: X -> seq<byte>, xs: seq<X>): seq<byte> {
    if xs == [] then [] else FlattenMap(f, xs[..|xs| - 1]) + f(xs[|xs| - 1])
  }

  /** The parts one after another, in order. */
  function PartsBytes(boundary: string, parts: seq<Part>): seq<byte> {
    FlattenMap(part => PartBytes(boundary, part), parts)
  }

  /** A whole body: the parts, then the closing delimiter. */
  function Serialize(boundary: string, parts: seq<Part>): seq<byte> {
    PartsBytes(boundary, parts) + Encode(CloseDelimiter(boundary))
  }

  /** Regrouping appended bytes. */
  lemma Assoc(a: seq<byte>, b: seq<byte>, c: seq<byte>)
    ensures a + b + c == a + (b + c)
  {
  }

  /** A text part is the three lines `appendMultipart` appends. */
  lemma TextPartPieces(boundary: string, name: string, value: string)
    ensures PartBytes(boundary, TextField(name, value))
      == Encode(DelimiterLine(boundary)) + Encode(TextDisposition(name)) + Encode(value + CRLF)
  {
    EncodeAppend(DelimiterLine(boundary), TextDisposition(name));
    EncodeAppend(value, CRLF);
    Assoc(Encode(DelimiterLine(boundary)) + Encode(TextDisposition(name)), Encode(value), Encode(CRLF));
  }

  /** A file part is the five pieces `appendMultipartFile` appends. */
  lemma FilePartPieces(boundary: string, name: string, filename: string, mimeType: string, data: seq<byte>)
    ensures PartBytes(boundary, FileField(name, filename, mimeType, data))
      == Encode(DelimiterLine(boundary)) + Encode(FileDisposition(name, filename))
         + Encode(ContentTypeLine(mimeType)) + data + Encode(CRLF)
  {
    EncodeAppend(DelimiterLine(boundary), FileDisposition(name, filename));
    EncodeAppend(DelimiterLine(boundary) + FileDisposition(name, filename), ContentTypeLine(mimeType));
  }

  /**
   * `Data` as the body builder uses it: a byte buffer that only grows.
   */
  class FormBody {
    var bytes: seq<byte>

    constructor()
      ensures bytes == []
    {
      bytes := [];
    }

    /** `append(_:)`. */
    method Append(data: seq<byte>)
      modifies this
      ensures bytes == old(bytes) + data
    {
      bytes := bytes + data;
    }

    /** `appendMultipart`: appends one text part, line by line. */
    method AppendMultipart(boundary: string, name: string, value: string)
      modifies this
      ensures bytes == old(bytes) + PartBytes(boundary, TextField(name, value))
    {
      TextPartPieces(boundary, name, value);
      var delimiter, disposition, line := Encode(DelimiterLine(boundary)), Encode(TextDisposition(name)), Encode(value + CRLF);
      bytes := bytes + delimiter;
      bytes := bytes + disposition;
      bytes := bytes + line;
      Assoc(old(bytes), delimiter, disposition);
      Assoc(old(bytes), delimiter + disposition, line);
    }

    /** `appendMultipartFile`: appends one file part, its bytes unchanged. */
    method AppendMultipartFile(boundary: string, name: string, filename: string, mimeType: string, data: seq<byte>)
      modifies this
      ensures bytes == old(bytes) + PartBytes(boundary, FileField(name, filename, mimeType, data))
    {
      FilePartPieces(boundary, name, filename, mimeType, data);
      var delimiter, disposition := Encode(DelimiterLine(boundary)), Encode(FileDisposition(name, filename));
      var contentType, lineBreak := Encode(ContentTypeLine(mimeType)), Encode(CRLF);
      bytes := bytes + delimiter;
      bytes := bytes + disposition;
      bytes := bytes + contentType;
      bytes := bytes + data;
      bytes := bytes + lineBreak;
      Assoc(old(bytes), delimiter, disposition);
      Assoc(old(bytes), delimiter + disposition, contentType);
      Assoc(old(bytes), delimiter + disposition + contentType, data);
      Assoc(old(bytes), delimiter + disposition + contentType + data, lineBreak);
    }
  }

  /** The media type the audio file is sent as. */
  const AudioMimeType := "audio/mp4"

  /** A language is sent only when one is given and it is neither empty nor "auto". */
  predicate SendsLanguage(language: Option<string>) {
    language.Some? && language.value != "" && language.value != "auto"
  }

  /** The fields of the transcription upload, in the order they are appended. */
  function TranscriptionParts(model: string, language: Option<string>, filename: string, audio: seq<byte>): seq<Part> {
    [TextField("model", model)]
    + (if SendsLanguage(language) then [TextField("language", language.value)] else [])
    + [FileField("file", filename, AudioMimeType, audio)]
  }

  /**
   * The model field comes first and the audio file last; a language field
   * sits between them exactly when a language is sent.
   */
  lemma TranscriptionPartsLayout(model: string, language: Option<string>, filename: string, audio: seq<byte>)
    ensures var parts := TranscriptionParts(model, language, filename, audio);
      && (|parts| == 3 <==> SendsLanguage(language))
      && (|parts| == 2 <==> !SendsLanguage(language))
      && parts[0] == TextField("model", model)
      && parts[|parts| - 1] == FileField("file", filename, "audio/mp4", audio)
      && (SendsLanguage(language) ==> parts[1] == TextField("language", language.value))
      && (forall i :: 0 <= i < |parts| ==> (parts[i].FileField? <==> i == |parts| - 1))
  {
  }

  /** "auto", the empty string and no language all leave the language field out. */
  lemma AutoDetectionSendsNoLanguage(model: string, filename: string, audio: seq<byte>)
    ensures TranscriptionParts(model, None, filename, audio) == TranscriptionParts(model, Some(""), filename, audio)
    ensures TranscriptionParts(model, None, filename, audio) == TranscriptionParts(model, Some("auto"), filename, audio)
    ensures |TranscriptionParts(model, None, filename, audio)| == 2
  {
  }

  /** Flattening one more element appends its image. */
  lemma FlattenMapSnoc<X>(f: X -> seq<byte>, xs: seq<X>, x: X)
    ensures FlattenMap(f, xs + [x]) == FlattenMap(f, xs) + f(x)
  {
    assert (xs + [x])[..|xs|] == xs;
  }

  /** Flattening distributes over concatenation. */
  lemma {:induction false} FlattenMapConcat<X>(f: X -> seq<byte>, xs: seq<X>, ys: seq<X>)
    ensures FlattenMap(f, xs + ys) == FlattenMap(f, xs) + FlattenMap(f, ys)
    decreases |ys|
  {
    if ys == [] {
      assert xs + ys == xs;
    } else {
      var front, last := ys[..|ys| - 1], ys[|ys| - 1];
      assert xs + ys == (xs + front) + [last];
      FlattenMapSnoc(f, xs + front, last);
      FlattenMapConcat(f, xs, front);
      Assoc(FlattenMap(f, xs), FlattenMap(f, front), f(last));
    }
  }

  /** Serializing parts one list after another is serializing the joined list. */
  lemma PartsBytesConcat(boundary: string, xs: seq<Part>, ys: seq<Part>)
    ensures PartsBytes(boundary, xs + ys) == PartsBytes(boundary, xs) + PartsBytes(boundary, ys)
  {
    FlattenMapConcat(part => PartBytes(boundary, part), xs, ys);
  }

  /** Appending one part appends its bytes. */
  lemma PartsBytesSnoc(boundary: string, parts: seq<Part>, part: Part)
    ensures PartsBytes(boundary, parts + [part]) == PartsBytes(boundary, parts) + PartBytes(boundary, part)
  {
    FlattenMapSnoc(part => PartBytes(boundary, part), parts, part);
  }

  /**
   * The body assembled in `transcribe`: the model field, the language field
   * when one is sent, the audio file and the closing delimiter.
   */
  method BuildTranscriptionBody(boundary: string, model: string, language: Option<string>, filename: string, audio: seq<byte>)
    returns (body: seq<byte>)
    ensures body == Serialize(boundary, TranscriptionParts(model, language, filename, audio))
  {
    var form := new FormBody();
    ghost var sent: seq<Part> := [];
    form.AppendMultipart(boundary, "model", model);
    PartsBytesSnoc(boundary, sent, TextField("model", model));
    sent := sent + [TextField("model", model)];
    if language.Some? && language.value != "" && language.value != "auto" {
      form.AppendMultipart(boundary, "language", language.value);
      PartsBytesSnoc(boundary, sent, TextField("language", language.value));
      sent := sent + [TextField("language", language.value)];
    }
    form.AppendMultipartFile(boundary, "file", filename, AudioMimeType, audio);
    PartsBytesSnoc(boundary, sent, FileField("file", filename, AudioMimeType, audio));
    sent := sent + [FileField("file", filename, AudioMimeType, audio)];
    assert sent == TranscriptionParts(model, language, filename, audio);
    form.Append(Encode(CloseDelimiter(boundary)));
    body := form.bytes;
  }

  /** A body of a first part, some middle parts and a last part, grouped around its two ends. */
  lemma SerializeAround(boundary: string, first: Part, middle: seq<Part>, last: Part)
    ensures Serialize(boundary, [first] + middle + [last])
      == PartBytes(boundary, first) + PartsBytes(boundary, middle)
         + (PartBytes(boundary, last) + Encode(CloseDelimiter(boundary)))
  {
    PartsBytesConcat(boundary, [first], middle);
    PartsBytesSnoc(boundary, [], first);
    PartsBytesSnoc(boundary, [first] + middle, last);
    assert [] + [first] == [first];
    var f, m, l := PartBytes(boundary, first), PartsBytes(boundary, middle), PartBytes(boundary, last);
    assert PartsBytes(boundary, []) == [];
    assert [] + f == f;
    Assoc(f + m, l, Encode(CloseDelimiter(boundary)));
  }

  /**
   * `body` begins with `opening` and ends with `content` followed by
   * `closing`, with room for all three.
   */
  predicate Framed(body: seq<byte>, opening: seq<byte>, content: seq<byte>, closing: seq<byte>) {
    && |body| >= |opening| + |content| + |closing|
    && body[..|opening|] == opening
    && body[|body| - |closing|..] == closing
    && body[|body| - |closing| - |content|..|body| - |closing|] == content
  }

  /** Where the first chunk, the next-to-last and the last sit in a body. */
  lemma Framing(x: seq<byte>, y: seq<byte>, h: seq<byte>, z: seq<byte>, w: seq<byte>)
    ensures Framed(x + y + (h + z + w), x, z, w)
  {
  }

  /** Any body that starts with a part and ends with a file part is framed by them. */
  lemma FramingAround(boundary: string, first: Part, middle: seq<Part>, file: Part)
    requires file.FileField?
    ensures Framed(Serialize(boundary, [first] + middle + [file]), PartBytes(boundary, first), file.data,
      Encode(CRLF) + Encode(CloseDelimiter(boundary)))
  {
    var head, lineBreak, close := Encode(Head(boundary, file)), Encode(CRLF), Encode(CloseDelimiter(boundary));
    SerializeAround(boundary, first, middle, file);
    assert PartBytes(boundary, file) == head + file.data + lineBreak;
    Assoc(head + file.data, lineBreak, close);
    Framing(PartBytes(boundary, first), PartsBytes(boundary, middle), head, file.data, lineBreak + close);
  }

  /**
   * The body opens with the first part's delimiter line and the model
   * field, and ends with the audio bytes unchanged, a line break and the
   * closing delimiter.
   */
  lemma TranscriptionBodyFraming(boundary: string, model: string, language: Option<string>, filename: string, audio: seq<byte>)
    ensures Framed(Serialize(boundary, TranscriptionParts(model, language, filename, audio)),
      PartBytes(boundary, TextField("model", model)), audio, Encode(CRLF) + Encode(CloseDelimiter(boundary)))
  {
    var first, file := TextField("model", model), FileField("file", filename, AudioMimeType, audio);
    if SendsLanguage(language) {
      FramingAround(boundary, first, [TextField("language", language.value)], file);
    } else {
      FramingAround(boundary, first, [], file);
    }
  }
}

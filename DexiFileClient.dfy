/** DexiFileClient: recognises file field values of the form
    FILE:<mimetype>;<size>;<fileId> and fetches the file they point to. */
module DexiFileClient {
  import opened Wrappers
  import opened JavaText

  const FilePrefix: string := "FILE:"
  const UuidLength: nat := 36

  predicate IsLowerHex(c: char) {
    '0' <= c <= '9' || 'a' <= c <= 'f'
  }

  /** The positions of the four dashes in 8-4-4-4-12. */
  predicate IsDashPosition(i: int) {
    i == 8 || i == 13 || i == 18 || i == 23
  }

  /** UUID_REGEX_PATTERN: the lower-case string form of a UUID (section 3 of
      RFC 4122): 8-4-4-4-12 lower-case hex digits. */
  predicate IsUuid(u: string) {
    && |u| == UuidLength
    && forall i :: 0 <= i < |u| ==> if IsDashPosition(i) then u[i] == '-' else IsLowerHex(u[i])
  }

  /** What Java's `$` accepts after the last group without MULTILINE: the end
      of input, or one final line terminator before it. */
  predicate IsFinalLineTerminator(t: string) {
    || t == []
    || (|t| == 1 && t[0] in {'\n', '\r', '\U{85}', '\U{2028}', '\U{2029}'})
    || (|t| == 2 && t[0] == '\r' && t[1] == '\n')
  }

  /** The three captured fields (groups 2, 3 and 4). */
  datatype FileField = FileField(mimeType: string, size: string, fileId: string)

  /** A successful match: the captured fields and what `$` let through. */
  datatype Match = Match(field: FileField, terminator: string)

  /** The text a match spans. */
  function Compose(m: Match): string {
    FilePrefix + (m.field.mimeType + (";" + (m.field.size + (";" + (m.field.fileId + m.terminator)))))
  }

  /** Splitting at the first ';'. */
  function CutAtSemicolon(s: string): (r: Option<(string, string)>)
    ensures r.None? <==> ';' !in s
    ensures r.Some? ==> ';' !in r.value.0 && s == r.value.0 + (";" + r.value.1)
  {
    var i := IndexOf(s, ';');
    if i == -1 then None
    else
      assert s == s[..i] + (";" + s[i + 1..]);
      Some((s[..i], s[i + 1..]))
  }

  lemma CutComposed(a: string, b: string)
    requires ';' !in a
    ensures CutAtSemicolon(a + (";" + b)) == Some((a, b))
  {
    var s := a + (";" + b);
    assert s[..|a|] == a;
    IndexOfFirst(s, ';', |a|);
    assert s[|a| + 1..] == b;
  }

  /** The last group and `$`: a uuid, then at most a final line terminator. */
  function MatchTail(tail: string): (r: Option<(string, string)>)
    ensures r.Some? ==> IsUuid(r.value.0) && IsFinalLineTerminator(r.value.1) && tail == r.value.0 + r.value.1
  {
    if |tail| >= UuidLength && IsUuid(tail[..UuidLength]) && IsFinalLineTerminator(tail[UuidLength..]) then
      assert tail == tail[..UuidLength] + tail[UuidLength..];
      Some((tail[..UuidLength], tail[UuidLength..]))
    else None
  }

  lemma MatchTailComposed(u: string, t: string)
    requires |u| == UuidLength
    ensures MatchTail(u + t) == if IsUuid(u) && IsFinalLineTerminator(t) then Some((u, t)) else None
  {
    assert (u + t)[..UuidLength] == u && (u + t)[UuidLength..] == t;
  }

  /** The pattern ^(FILE:)([^;]*);([^;]*);(uuid)$, under find(), as a parser. */
  function ParseFileField(v: string): (r: Option<Match>)
    ensures r.Some? ==>
      && ';' !in r.value.field.mimeType && ';' !in r.value.field.size
      && IsUuid(r.value.field.fileId) && IsFinalLineTerminator(r.value.terminator)
      && v == Compose(r.value)
  {
    if !StartsWith(v, FilePrefix) then None
    else
      var rest := v[|FilePrefix|..];
      assert v == FilePrefix + rest;
      match CutAtSemicolon(rest)
      case None => None
      case Some((mime, afterMime)) =>
        match CutAtSemicolon(afterMime)
        case None => None
        case Some((size, tail)) =>
          match MatchTail(tail)
          case None => None
          case Some((fileId, t)) =>
            var m := Match(FileField(mime, size, fileId), t);
            assert tail == fileId + t;
            assert afterMime == size + (";" + tail);
            assert rest == mime + (";" + afterMime);
            assert Compose(m) == FilePrefix + (mime + (";" + (size + (";" + (fileId + t)))));
            Some(m)
  }

  /** Every value built in the documented format is recognised, with its
      fields: together with the parser's own postcondition this is the exact
      language of the pattern. */
  lemma ParseComposed(m: Match)
    requires ';' !in m.field.mimeType && ';' !in m.field.size
    requires IsUuid(m.field.fileId) && IsFinalLineTerminator(m.terminator)
    ensures ParseFileField(Compose(m)) == Some(m)
  {
    ComposedParts(m);
    MatchTailComposed(m.field.fileId, m.terminator);
  }

  /** How the parser walks a composed value: past the prefix and the two ';'
      to the final group. */
  lemma ComposedParts(m: Match)
    requires ';' !in m.field.mimeType && ';' !in m.field.size
    ensures var v := Compose(m);
      var y := m.field.size + (";" + (m.field.fileId + m.terminator));
      && StartsWith(v, FilePrefix)
      && CutAtSemicolon(v[|FilePrefix|..]) == Some((m.field.mimeType, y))
      && CutAtSemicolon(y) == Some((m.field.size, m.field.fileId + m.terminator))
  {
    var f := m.field;
    var v := Compose(m);
    var y := f.size + (";" + (f.fileId + m.terminator));
    var x := f.mimeType + (";" + y);
    assert v == FilePrefix + x;
    assert v[..|FilePrefix|] == FilePrefix;
    assert v[|FilePrefix|..] == x;
    CutComposed(f.mimeType, y);
    CutComposed(f.size, f.fileId + m.terminator);
  }

  /** An id with an upper-case hex digit is not a file field value. */
  lemma UppercaseIdRejected(m: Match, k: nat)
    requires ';' !in m.field.mimeType && ';' !in m.field.size
    requires |m.field.fileId| == UuidLength && k < UuidLength && 'A' <= m.field.fileId[k] <= 'F'
    ensures ParseFileField(Compose(m)).None?
  {
    var id := m.field.fileId;
    ComposedParts(m);
    MatchTailComposed(id, m.terminator);
    assert !IsUuid(id) by {
      if IsDashPosition(k) { assert id[k] != '-'; } else { assert !IsLowerHex(id[k]); }
    }
  }

  /** The uuid alphabet has no ';'. */
  lemma UuidHasNoSemicolon(u: string)
    requires IsUuid(u)
    ensures ';' !in u
  {
    forall i | 0 <= i < |u| ensures u[i] != ';' {
      if !IsDashPosition(i) { assert IsLowerHex(u[i]); }
    }
  }

  /** No line terminator is a ';'. */
  lemma TerminatorHasNoSemicolon(t: string)
    requires IsFinalLineTerminator(t)
    ensures ';' !in t
  {
    if |t| == 1 { assert t == [t[0]]; }
  }

  /** A recognised value holds exactly two ';'. */
  lemma TwoSeparators(v: string)
    requires ParseFileField(v).Some?
    ensures multiset(v)[';'] == 2
  {
    var m := ParseFileField(v).value;
    assert v == Compose(m);
    UuidHasNoSemicolon(m.field.fileId);
    TerminatorHasNoSemicolon(m.terminator);
    ComposedCount(m);
  }

  lemma ComposedCount(m: Match)
    requires ';' !in m.field.mimeType && ';' !in m.field.size
    requires ';' !in m.field.fileId && ';' !in m.terminator
    ensures multiset(Compose(m))[';'] == 2
  {
    var f := m.field;
    var last := f.fileId + m.terminator;
    assert multiset(last)[';'] == 0 by {
      assert multiset(last) == multiset(f.fileId) + multiset(m.terminator);
    }
    var y := f.size + (";" + last);
    assert multiset(y)[';'] == 1 by {
      assert multiset(y) == multiset(f.size) + (multiset(";") + multiset(last));
    }
    var x := f.mimeType + (";" + y);
    assert multiset(x)[';'] == 2 by {
      assert multiset(x) == multiset(f.mimeType) + (multiset(";") + multiset(y));
    }
    assert multiset(FilePrefix)[';'] == 0;
    assert multiset(Compose(m)) == multiset(FilePrefix) + multiset(x);
  }

  /** isFileFieldValue */
  predicate IsFileFieldValue(v: string): (b: bool)
    ensures b ==> StartsWith(v, FilePrefix) && |v| >= |FilePrefix| + 2 + UuidLength
  {
    ParseFileField(v).Some?
  }

  /** FileHandle: its three final fields, over an abstract stream type. */
  datatype FileHandle<S> = FileHandle(fileId: string, stream: S, size: int)

  /** new FileHandle(fileId, stream, size) */
  function NewFileHandle<S>(fileId: string, stream: S, size: int): (h: FileHandle<S>)
    ensures h.fileId == fileId && h.stream == stream && h.size == size
  {
    FileHandle(fileId, stream, size)
  }

  /** The requests getFileFromFieldValue issues and what it returns. */
  datatype FileLookup<S> = FileLookup(requests: seq<string>, handle: Option<FileHandle<S>>)

  /** getFileFromFieldValue, with the capture taken from a successful match.
      `fetch` stands for restClient.getFile(id).execute(): the body's stream
      and content length when the response is successful, None when it is
      not; an IOException from execute() is not modelled. */
  function GetFileFromFieldValue<S>(v: string, fetch: string -> Option<(S, int)>): (r: FileLookup<S>)
    ensures !IsFileFieldValue(v) ==> r == FileLookup([], None)
    ensures IsFileFieldValue(v) ==>
      var id := ParseFileField(v).value.field.fileId;
      && r.requests == [id]
      && (r.handle.Some? <==> fetch(id).Some?)
      && (r.handle.Some? ==> r.handle.value == FileHandle(id, fetch(id).value.0, fetch(id).value.1))
  {
    match ParseFileField(v)
    case None => FileLookup([], None)
    case Some(m) =>
      var fileId := m.field.fileId;
      match fetch(fileId)
      case None => FileLookup([fileId], None)
      case Some((stream, size)) => FileLookup([fileId], Some(NewFileHandle(fileId, stream, size)))
  }

  /** Every request that is issued names a well-formed id. */
  lemma RequestsAreUuids<S>(v: string, fetch: string -> Option<(S, int)>)
    ensures forall i :: 0 <= i < |GetFileFromFieldValue(v, fetch).requests| ==>
      IsUuid(GetFileFromFieldValue(v, fetch).requests[i])
  {
    if IsFileFieldValue(v) {
      var id := ParseFileField(v).value.field.fileId;
      assert GetFileFromFieldValue(v, fetch).requests == [id];
      assert IsUuid(id);
    }
  }

  datatype FileClientError = IllegalState

  /** getFileFromFieldValue as written: group(4) is read from a new Matcher on
      which no match was attempted, which throws IllegalStateException; so
      every recognised value ends in the exception and no request is sent. */
  function GetFileFromFieldValueAsWritten<S>(v: string, fetch: string -> Option<(S, int)>): (r: Result<FileLookup<S>, FileClientError>)
    ensures !IsFileFieldValue(v) ==> r == Success(FileLookup([], None))
    ensures IsFileFieldValue(v) ==> r == Failure(IllegalState)
  {
    if !IsFileFieldValue(v) then Success(FileLookup([], None))
    else Failure(IllegalState)
  }

  /** The id of the example value below. */
  const ExampleFileId: string := "123e4567-e89b-12d3-a456-426614174000"

  /** The value FILE:text/plain;12;123e4567-e89b-12d3-a456-426614174000 is
      recognised, with the trailing id as its file id. */
  lemma ExampleIsRecognised()
    ensures ParseFileField("FILE:text/plain;12;" + ExampleFileId)
         == Some(Match(FileField("text/plain", "12", ExampleFileId), ""))
  {
    var u := ExampleFileId;
    assert IsUuid(u) by {
      forall i | 0 <= i < |u| ensures if IsDashPosition(i) then u[i] == '-' else IsLowerHex(u[i]) { }
    }
    var m := Match(FileField("text/plain", "12", u), "");
    assert Compose(m) == "FILE:text/plain;12;" + u;
    ParseComposed(m);
  }

  /** On that value the code as written throws, where the intended extraction
      requests the trailing id. */
  lemma GroupWithoutMatchThrows<S>(fetch: string -> Option<(S, int)>)
    ensures GetFileFromFieldValueAsWritten("FILE:text/plain;12;" + ExampleFileId, fetch) == Failure(IllegalState)
    ensures GetFileFromFieldValue("FILE:text/plain;12;" + ExampleFileId, fetch).requests == [ExampleFileId]
  {
    ExampleIsRecognised();
  }
}

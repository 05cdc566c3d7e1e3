/**
 * The document upload dialog of a project
 * (components/AddProjectDocumentModal.tsx): the file-name sanitiser, the
 * storage object name, and the steps of an upload.
 *
 * JavaScript strings are sequences of UTF-16 code units, and a regular
 * expression without the `u` flag matches one code unit at a time. Here a
 * `char` is a Unicode scalar value, so a character outside the Basic
 * Multilingual Plane is the two code units of a surrogate pair.
 */
module AddProjectDocumentModal {
  import opened Wrappers
  import opened Text
  import opened AddProjectModal
  import opened ProjectHistory
  import opened Lists

  /** A character the final replacement keeps: `[a-zA-Z0-9._-]`. */
  predicate Allowed(c: char) {
    ('a' <= c <= 'z') || ('A' <= c <= 'Z') || ('0' <= c <= '9') || c == '.' || c == '_' || c == '-'
  }

  predicate AllAllowed(s: string) {
    forall i :: 0 <= i < |s| ==> Allowed(s[i])
  }

  /** A combining diacritical mark, U+0300 to U+036F. */
  predicate CombiningMark(c: char) {
    '\U{0300}' <= c <= '\U{036F}'
  }

  /** The number of UTF-16 code units of a character. */
  function CodeUnits(c: char): (n: nat)
    ensures n == 1 || n == 2
  {
    if c as int < 0x1_0000 then 1 else 2
  }

  /** `s.length` in JavaScript: the number of UTF-16 code units. */
  function Utf16Length(s: string): (n: nat)
    ensures n >= |s|
  {
    if s == [] then 0 else CodeUnits(s[0]) + Utf16Length(s[1..])
  }

  lemma {:induction false} Utf16LengthAppend(a: string, b: string)
    ensures Utf16Length(a + b) == Utf16Length(a) + Utf16Length(b)
  {
    if a != [] {
      assert (a + b)[1..] == a[1..] + b;
      Utf16LengthAppend(a[1..], b);
    } else {
      assert a + b == b;
    }
  }

  /** `.replace(/[\u0300-\u036f]/g, "")`. */
  function StripMarks(s: string): (r: string)
    ensures forall i :: 0 <= i < |r| ==> !CombiningMark(r[i])
    ensures |r| <= |s|
  {
    if s == [] then [] else (if CombiningMark(s[0]) then [] else [s[0]]) + StripMarks(s[1..])
  }

  /** Stripping keeps every other character, as often as it occurs and in its order. */
  lemma {:induction false} StripMarksOrder(s: string)
    ensures SubseqOf(StripMarks(s), s)
    ensures forall c :: !CombiningMark(c) ==> multiset(StripMarks(s))[c] == multiset(s)[c]
  {
    if s != [] {
      var rest := StripMarks(s[1..]);
      StripMarksOrder(s[1..]);
      assert s == [s[0]] + s[1..];
      if CombiningMark(s[0]) {
        assert StripMarks(s) == rest;
        SubseqSkip(rest, s);
      } else {
        assert StripMarks(s) == [s[0]] + rest;
        assert ([s[0]] + rest)[1..] == rest;
      }
    }
  }

  /** One '_' per code unit of a disallowed character. */
  function Replacement(c: char): (r: string)
    ensures AllAllowed(r) && Utf16Length(r) == CodeUnits(c)
    ensures Allowed(c) ==> r == [c]
    ensures !Allowed(c) ==> forall i :: 0 <= i < |r| ==> r[i] == '_'
  {
    var r := if Allowed(c) then [c] else if CodeUnits(c) == 1 then "_" else "__";
    assert Utf16Length(r) == CodeUnits(c) by {
      if |r| == 2 { assert r[1..] == "_"; }
    }
    r
  }

  /** `.replace(/[^a-zA-Z0-9._-]/g, "_")`. */
  function ReplaceDisallowed(s: string): (r: string)
  {
    if s == [] then [] else Replacement(s[0]) + ReplaceDisallowed(s[1..])
  }

  /** The replacement leaves only allowed characters and keeps the JavaScript length of the text. */
  lemma {:induction false} ReplaceDisallowedMeaning(s: string)
    ensures AllAllowed(ReplaceDisallowed(s))
    ensures Utf16Length(ReplaceDisallowed(s)) == Utf16Length(s)
  {
    if s != [] {
      ReplaceDisallowedMeaning(s[1..]);
      var head := Replacement(s[0]);
      var tail := ReplaceDisallowed(s[1..]);
      Utf16LengthAppend(head, tail);
      AllowedAppend(head, tail);
    }
  }

  /** A text of allowed characters is left as it is. */
  lemma {:induction false} ReplaceDisallowedKeeps(s: string)
    requires AllAllowed(s)
    ensures ReplaceDisallowed(s) == s
  {
    if s != [] {
      ReplaceDisallowedKeeps(s[1..]);
      assert s == [s[0]] + s[1..];
    }
  }

  /** An allowed text has no combining mark to strip. */
  lemma {:induction false} StripMarksKeeps(s: string)
    requires AllAllowed(s)
    ensures StripMarks(s) == s
  {
    if s != [] {
      StripMarksKeeps(s[1..]);
      assert s == [s[0]] + s[1..];
    }
  }

  /**
   * `sanitizeFileName`. `nfd` stands for `String.prototype.normalize("NFD")`,
   * which splits accented letters into a base letter and combining marks.
   */
  function Sanitize(name: string, nfd: string -> string): (r: string)
    ensures AllAllowed(r)
    ensures Utf16Length(r) == Utf16Length(StripMarks(nfd(name)))
  {
    ReplaceDisallowedMeaning(StripMarks(nfd(name)));
    ReplaceDisallowed(StripMarks(nfd(name)))
  }

  /** Sanitising twice is sanitising once, given that NFD leaves plain ASCII text alone, as it does. */
  lemma SanitizeIdempotent(name: string, nfd: string -> string)
    requires forall t :: AllAllowed(t) ==> nfd(t) == t
    ensures Sanitize(Sanitize(name, nfd), nfd) == Sanitize(name, nfd)
  {
    var once := Sanitize(name, nfd);
    StripMarksKeeps(once);
    ReplaceDisallowedKeeps(once);
  }

  /** A name with an accent: NFD turns 'é' into 'e' and U+0301, whose mark is then dropped. */
  lemma AccentDropped(nfd: string -> string)
    requires nfd("\U{E9}.pdf") == "e\U{0301}.pdf"
    ensures Sanitize("\U{E9}.pdf", nfd) == "e.pdf"
  {
    assert StripMarks("e\U{0301}.pdf") == "e.pdf";
    ReplaceDisallowedKeeps("e.pdf");
  }

  /** A space becomes one '_'; a character outside the Basic Multilingual Plane becomes two. */
  lemma ReplacementWidth()
    ensures ReplaceDisallowed("a b") == "a_b"
    ensures ReplaceDisallowed("\U{1F4C4}") == "__"
  {
    assert ReplaceDisallowed("b") == "b";
    assert ReplaceDisallowed(" b") == "_b";
  }

  /**
   * The storage object name `projectId/timestamp_sanitised`. After the
   * project's folder it has only allowed characters (no further '/'), so
   * every document lands directly in the folder of its project, and it ends
   * with the sanitised file name.
   */
  function ObjectName(projectId: string, now: int, name: string, nfd: string -> string): (r: string)
    ensures |r| > |projectId| + |Sanitize(name, nfd)| && r[..|projectId| + 1] == projectId + "/"
    ensures now >= 0 ==> AllAllowed(r[|projectId| + 1..])
    ensures r[|r| - |Sanitize(name, nfd)|..] == Sanitize(name, nfd)
  {
    var digits := IntToString(now);
    var clean := Sanitize(name, nfd);
    var rest := digits + "_" + clean;
    assert now >= 0 ==> AllAllowed(rest) by {
      if now >= 0 {
        assert AllAllowed(digits) by {
          assert AllDigits(digits);
        }
        AllowedAppend(digits, "_");
        AllowedAppend(digits + "_", clean);
      }
    }
    var r := projectId + "/" + IntToString(now) + "_" + Sanitize(name, nfd);
    assert r == (projectId + "/") + rest;
    r
  }

  lemma AllowedAppend(a: string, b: string)
    requires AllAllowed(a) && AllAllowed(b)
    ensures AllAllowed(a + b)
  {
    assert forall i :: 0 <= i < |a + b| ==> (a + b)[i] == (if i < |a| then a[i] else b[i - |a|]);
  }

  /** The chosen file: its name and its MIME type. */
  datatype FileInfo = FileInfo(name: string, mimeType: string)

  /** A `project_documents` row: the original file name is kept, the sanitised one is only in the URL. */
  datatype DocumentRow = DocumentRow(projectId: string, name: string, url: string, mimeType: string)

  /** The requests of one upload. */
  datatype Upload = Upload(objectName: string, document: DocumentRow, entry: Option<HistoryEntry>)

  class DocumentDialog {
    var file: Option<FileInfo>

    constructor ()
      ensures file.None?
    {
      file := None;
    }

    /** `handleFileChange`: the first chosen file; choosing none keeps the previous one. */
    method ChooseFile(files: seq<FileInfo>)
      modifies this
      ensures files != [] ==> file == Some(files[0])
      ensures files == [] ==> file == old(file)
    {
      if |files| > 0 {
        file := Some(files[0]);
      }
    }

    /**
     * `handleSubmit` when every request succeeds. Without a file nothing
     * happens; otherwise the file is stored under its object name, its row
     * points at `publicUrl` of that name, an UPLOAD entry is logged for a
     * signed-in user, and the file is cleared.
     */
    method Submit(projectId: string, now: int, user: Option<string>, nfd: string -> string,
                  publicUrl: string -> string)
      returns (upload: Option<Upload>)
      modifies this
      ensures old(file).None? ==> upload.None? && file.None?
      ensures old(file).Some? ==> (
        var f := old(file).value;
        var name := ObjectName(projectId, now, f.name, nfd);
        upload == Some(Upload(name, DocumentRow(projectId, f.name, publicUrl(name), f.mimeType),
          if user.Some? then Some(HistoryEntry(projectId, user.value, "UPLOAD",
                                               "enviou o documento \"" + f.name + "\"."))
          else None))
        && file.None?)
    {
      if file.None? {
        return None;
      }
      var f := file.value;
      var name := ObjectName(projectId, now, f.name, nfd);
      var row := DocumentRow(projectId, f.name, publicUrl(name), f.mimeType);
      var entry: Option<HistoryEntry> := None;
      if user.Some? {
        entry := Some(HistoryEntry(projectId, user.value, "UPLOAD", "enviou o documento \"" + f.name + "\"."));
      }
      upload := Some(Upload(name, row, entry));
      file := None;
    }
  }
}

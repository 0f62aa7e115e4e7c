/**
 * Where uploaded images live on disk (app/storage.py). Directory and file names
 * are pure functions of the image's context; the image root is a map from
 * locations to file contents, and the save, list and delete operations change
 * or read that map. The clock's timestamp and the random token of a new file
 * name are parameters.
 */
module Storage {
  import opened Wrappers
  import opened Text
  import opened Schemas

  /** `ImageContext`: where an image belongs. */
  datatype ImageContext = ImageContext(seriesId: int, seriesTitle: Option<string>, issueId: int,
                                       issueNumber: Option<string>, issueVariant: Option<string>,
                                       copyId: int, imageType: ImageType)

  // ----- Sanitizing path components -----

  /** A character `_SAFE_CHARS_RE` leaves alone: `[A-Za-z0-9._-]`. */
  predicate IsSafeChar(c: char) { IsAsciiUpper(c) || IsAsciiLower(c) || IsDigit(c) || c == '.' || c == '_' || c == '-' }

  predicate IsUnsafeChar(c: char) { !IsSafeChar(c) }

  predicate IsSafeText(s: string) { forall i :: 0 <= i < |s| ==> IsSafeChar(s[i]) }

  /** Safe text with no `_` at either end: what a sanitized component looks like. */
  predicate IsClean(s: string) { s != [] && IsSafeText(s) && s[0] != '_' && s[|s| - 1] != '_' }

  /** `_SAFE_CHARS_RE.sub("_", s)`: each maximal run of other characters becomes one `_`. */
  function ReplaceUnsafeRuns(s: string): (r: string)
    ensures IsSafeText(r)
    ensures IsSafeText(s) ==> r == s
    ensures s != [] && IsSafeChar(s[0]) ==> r != [] && r[0] == s[0]
    decreases |s|
  {
    if s == [] then []
    else if IsSafeChar(s[0]) then [s[0]] + ReplaceUnsafeRuns(s[1..])
    else "_" + ReplaceUnsafeRuns(TrimStart(s, IsUnsafeChar))
  }

  /** Stripping `_` from safe text leaves nothing or a clean component. */
  lemma StripUnderscoresIsClean(s: string)
    requires IsSafeText(s)
    ensures var c := StripUnderscores(s); c == [] || IsClean(c)
  {
    var t := TrimStart(s, IsUnderscore);
    assert IsSafeText(t) by {
      forall i | 0 <= i < |t| ensures IsSafeChar(t[i]) {
        assert t[i] == s[|s| - |t| + i];
      }
    }
    var c := TrimEnd(t, IsUnderscore);
    if c != [] {
      assert c[0] == t[0];
      assert IsSafeText(c) by {
        forall i | 0 <= i < |c| ensures IsSafeChar(c[i]) {
          assert c[i] == t[i];
        }
      }
    }
  }

  /** `_sanitize_component`: strip, replace unsafe runs, strip `_`, or fall back when nothing is left. */
  function Sanitize(raw: string, fallback: string): (r: string)
    ensures r == fallback || IsClean(r)
  {
    var replaced := ReplaceUnsafeRuns(Strip(raw));
    var cleaned := StripUnderscores(replaced);
    StripUnderscoresIsClean(replaced);
    if cleaned == [] then fallback else cleaned
  }

  /** A clean component is returned unchanged. */
  lemma SanitizeKeepsClean(s: string, fallback: string)
    requires IsClean(s)
    ensures Sanitize(s, fallback) == s
  {
    TrimsKeepEnds(s, IsSpace);
    TrimsKeepEnds(s, IsUnderscore);
  }

  /** Sanitizing twice is sanitizing once, when the fallback is itself clean. */
  lemma SanitizeIdempotent(raw: string, fallback: string, other: string)
    requires IsClean(fallback)
    ensures Sanitize(Sanitize(raw, fallback), other) == Sanitize(raw, fallback)
  {
    SanitizeKeepsClean(Sanitize(raw, fallback), other);
  }

  /** Sanitizing keeps a leading character that is safe and not `_`. */
  lemma SanitizeKeepsFirst(raw: string, fallback: string)
    requires raw != [] && IsSafeChar(raw[0]) && raw[0] != '_'
    ensures var r := Sanitize(raw, fallback); r != [] && r[0] == raw[0]
  {
    TrimsKeepFirst(raw, IsSpace);
    var stripped := Strip(raw);
    var replaced := ReplaceUnsafeRuns(stripped);
    TrimsKeepFirst(replaced, IsUnderscore);
  }

  /** A single path component that names a real entry: clean, and neither `.` nor `..`. */
  predicate IsPlainComponent(s: string) { IsClean(s) && s != "." && s != ".." }

  /** `{prefix}{id}`, the fallback components, are plain. */
  lemma IdFallbackIsPlain(prefix: string, id: int)
    requires prefix != [] && IsSafeText(prefix) && prefix[0] != '_' && prefix[0] != '.'
    ensures IsPlainComponent(prefix + IntToString(id))
  {
    var digits := IntToString(id);
    var s := prefix + digits;
    assert s[0] == prefix[0];
    assert s[|s| - 1] == digits[|digits| - 1];
    assert IsSafeText(s) by {
      forall k | 0 <= k < |s| ensures IsSafeChar(s[k]) {
        if k < |prefix| {
          assert s[k] == prefix[k];
        } else {
          assert s[k] == digits[k - |prefix|];
        }
      }
    }
  }

  function SeriesFallback(seriesId: int): string { "series_" + IntToString(seriesId) }

  /** `_series_directory` as written: a title that sanitizes to `.` or `..` is kept. */
  function SeriesDirectoryAsWritten(seriesTitle: Option<string>, seriesId: int): (r: string)
    ensures r == SeriesFallback(seriesId) || IsClean(r)
  {
    var title := if seriesTitle.None? || seriesTitle.value == "" then SeriesFallback(seriesId) else seriesTitle.value;
    Sanitize(title, SeriesFallback(seriesId))
  }

  /** The series titled `..` is stored in the parent of the image root. */
  lemma SeriesDirectoryEscapesRoot(title: string, seriesId: int)
    requires title == ".."
    ensures SeriesDirectoryAsWritten(Some(title), seriesId) == ".."
  {
    SanitizeKeepsClean(title, SeriesFallback(seriesId));
  }

  /** `_series_directory`, falling back to `series_{id}` also when the title sanitizes to `.` or `..`. */
  function SeriesDirectory(seriesTitle: Option<string>, seriesId: int): (r: string)
    ensures IsPlainComponent(r)
    ensures var w := SeriesDirectoryAsWritten(seriesTitle, seriesId); w != "." && w != ".." ==> r == w
  {
    IdFallbackIsPlain("series_", seriesId);
    var name := SeriesDirectoryAsWritten(seriesTitle, seriesId);
    if name == "." || name == ".." then SeriesFallback(seriesId) else name
  }

  /** A title that is already clean names its own directory. */
  lemma CleanTitleIsDirectory(title: string, seriesId: int)
    requires IsPlainComponent(title)
    ensures SeriesDirectory(Some(title), seriesId) == title
  {
    SanitizeKeepsClean(title, SeriesFallback(seriesId));
  }

  lemma IssueLabelIsClean(base: string, issueId: int)
    ensures var l := Sanitize("issue_" + base, "issue_" + IntToString(issueId)); IsClean(l) && l[0] == 'i'
  {
    IdFallbackIsPlain("issue_", issueId);
    var raw := "issue_" + base;
    assert raw[0] == 'i';
    SanitizeKeepsFirst(raw, "issue_" + IntToString(issueId));
  }

  lemma VariantLabelIsClean(head: string, variant: string)
    requires IsClean(head) && head[0] == 'i' && IsClean(variant)
    ensures var r := head + "_" + variant; IsPlainComponent(r) && r[0] == 'i'
  {
    var r := head + "_" + variant;
    assert IsSafeText(r) by {
      forall k | 0 <= k < |r| ensures IsSafeChar(r[k]) {
        if k < |head| {
          assert r[k] == head[k];
        } else if k > |head| {
          assert r[k] == variant[k - |head| - 1];
        }
      }
    }
    assert r[0] == 'i';
    assert r[|r| - 1] == variant[|variant| - 1];
  }

  /** The issue part of the directory name: `issue_` and the number, sanitized. */
  function IssueLabel(base: string, issueId: int): (r: string)
    ensures IsClean(r) && r[0] == 'i'
  {
    IssueLabelIsClean(base, issueId);
    Sanitize("issue_" + base, "issue_" + IntToString(issueId))
  }

  /** The variant part of the directory name, sanitized. */
  function VariantLabel(variant: string, issueId: int): (r: string)
    ensures IsClean(r)
  {
    IdFallbackIsPlain("variant_", issueId);
    Sanitize(variant, "variant_" + IntToString(issueId))
  }

  /** `_issue_directory`: `issue_` and the number (or `issue_{id}`), then `_` and the variant when there is one. */
  function IssueDirectory(issueNumber: Option<string>, issueVariant: Option<string>, issueId: int): (r: string)
    ensures IsPlainComponent(r) && r[0] == 'i'
  {
    var base := if issueNumber.None? || issueNumber.value == "" then "issue_" + IntToString(issueId) else issueNumber.value;
    var name := IssueLabel(base, issueId);
    if issueVariant.Some? && issueVariant.value != "" then
      var variant := VariantLabel(issueVariant.value, issueId);
      VariantLabelIsClean(name, variant);
      name + "_" + variant
    else name
  }

  /** An issue without a number is stored under `issue_issue_{id}`: the fallback gets the prefix a second time. */
  lemma IssueDirectoryWithoutNumber(issueId: int)
    ensures IssueDirectory(None, None, issueId) == "issue_issue_" + IntToString(issueId)
  {
    IdFallbackIsPlain("issue_issue_", issueId);
    assert "issue_" + ("issue_" + IntToString(issueId)) == "issue_issue_" + IntToString(issueId);
    SanitizeKeepsClean("issue_issue_" + IntToString(issueId), "issue_" + IntToString(issueId));
  }

  // ----- File names -----

  /** The components `pathlib` keeps from a POSIX path: empty and `.` pieces are dropped. */
  function PathComponents(p: string): (r: seq<string>)
    ensures forall i :: 0 <= i < |r| ==> r[i] != [] && r[i] != "." && '/' !in r[i]
  {
    Kept(Split(p, '/'))
  }

  function Kept(pieces: seq<string>): (r: seq<string>)
    requires forall i :: 0 <= i < |pieces| ==> '/' !in pieces[i]
    ensures forall i :: 0 <= i < |r| ==> r[i] != [] && r[i] != "." && '/' !in r[i] && r[i] in pieces
    decreases |pieces|
  {
    if pieces == [] then []
    else (if pieces[0] == [] || pieces[0] == "." then [] else [pieces[0]]) + Kept(pieces[1..])
  }

  /** `Path(p).name`: the last kept component, or empty. */
  function PathName(p: string): (r: string)
    ensures '/' !in r
  {
    var parts := PathComponents(p);
    if parts == [] then "" else parts[|parts| - 1]
  }

  /** The index of the last `c` in `s`, or -1: `s.rfind(c)`. */
  function LastIndexOf(s: string, c: char): (i: int)
    ensures -1 <= i < |s|
    ensures i >= 0 ==> s[i] == c && forall k :: i < k < |s| ==> s[k] != c
    ensures i == -1 ==> c !in s
    decreases |s|
  {
    if s == [] then -1
    else if s[|s| - 1] == c then |s| - 1
    else LastIndexOf(s[..|s| - 1], c)
  }

  /** `PurePath.suffix` of a name: from its last `.`, unless that dot leads or ends the name. */
  function Suffix(name: string): (r: string)
    ensures r == [] || (|r| >= 2 && r[0] == '.')
  {
    var i := LastIndexOf(name, '.');
    if 0 < i < |name| - 1 then name[i..]
    else ""
  }

  /** `f"copy{copy_id}_"`, the prefix of every file of a copy. */
  function CopyPrefix(copyId: int): string { "copy" + IntToString(copyId) + "_" }

  /** What follows the type in a new file name: timestamp, token and the upload's lower-cased suffix, `.bin` when it has none. */
  function FilenameTail(originalFilename: Option<string>, timestamp: string, token: string): string {
    var suffix := if originalFilename.Some? && originalFilename.value != "" then Lower(Suffix(PathName(originalFilename.value))) else "";
    var ext := if suffix == "" then ".bin" else suffix;
    timestamp + "_" + token + ext
  }

  /** `_build_filename`: `copy{id}_{type}_{timestamp}_{token}{suffix}`. */
  function BuildFilename(copyId: int, imageType: ImageType, originalFilename: Option<string>,
                         timestamp: string, token: string): string
  {
    CopyPrefix(copyId) + TypeValue(imageType) + "_" + FilenameTail(originalFilename, timestamp, token)
  }

  /** `_parse_image_type` as written: the type is the text between the prefix and the next `_`. */
  function ParseImageTypeAsWritten(copyId: int, filename: string): Option<ImageType> {
    var prefix := CopyPrefix(copyId);
    if !StartsWith(filename, prefix) then None
    else
      var parts := Split(filename[|prefix|..], '_');
      ImageTypeOf(parts[0])
  }

  const AllImageTypes: seq<ImageType> := [Front, Back, Spine, Staples, InteriorFrontCover, InteriorBackCover, Misc]

  /** The first of `types` whose value followed by `_` begins `remainder`. */
  function TypeWithPrefix(remainder: string, types: seq<ImageType>): (r: Option<ImageType>)
    ensures r.Some? ==> r.value in types && StartsWith(remainder, TypeValue(r.value) + "_")
    ensures r.None? ==> forall t :: t in types ==> !StartsWith(remainder, TypeValue(t) + "_")
    decreases |types|
  {
    if types == [] then None
    else if StartsWith(remainder, TypeValue(types[0]) + "_") then Some(types[0])
    else TypeWithPrefix(remainder, types[1..])
  }

  /** `_parse_image_type`, recognising type values that themselves contain `_`. */
  function ParseImageType(copyId: int, filename: string): (r: Option<ImageType>)
    ensures r.Some? ==> StartsWith(filename, CopyPrefix(copyId) + TypeValue(r.value) + "_")
  {
    var prefix := CopyPrefix(copyId);
    if !StartsWith(filename, prefix) then None
    else
      var remainder := filename[|prefix|..];
      var r := TypeWithPrefix(remainder, AllImageTypes);
      if r.Some? then
        assert filename == prefix + remainder;
        assert (prefix + TypeValue(r.value) + "_") == prefix + (TypeValue(r.value) + "_");
        r
      else r
  }

  lemma PrefixesAgree(s: string, p: string, q: string)
    requires StartsWith(s, p) && StartsWith(s, q) && |p| <= |q|
    ensures StartsWith(q, p)
  {
    assert q[..|p|] == s[..|q|][..|p|];
  }

  /** No type's value with its `_` begins another type's. */
  lemma DifferAt(a: string, b: string, k: nat)
    requires k < |a| && k < |b| && a[k] != b[k]
    ensures !StartsWith(b, a)
  {
  }

  lemma TypePrefixesDistinct(t: ImageType, u: ImageType)
    requires t != u
    ensures !StartsWith(TypeValue(u) + "_", TypeValue(t) + "_")
  {
    var a, b := TypeValue(t) + "_", TypeValue(u) + "_";
    if (t == Spine || t == Staples) && (u == Spine || u == Staples) {
      DifferAt(a, b, 1);
    } else if (t == InteriorFrontCover || t == InteriorBackCover) && (u == InteriorFrontCover || u == InteriorBackCover) {
      DifferAt(a, b, 9);
    } else {
      DifferAt(a, b, 0);
    }
  }

  lemma TypeWithPrefixFinds(remainder: string, t: ImageType, types: seq<ImageType>)
    requires StartsWith(remainder, TypeValue(t) + "_") && t in types
    ensures TypeWithPrefix(remainder, types) == Some(t)
    decreases |types|
  {
    if types[0] != t {
      var u := types[0];
      if StartsWith(remainder, TypeValue(u) + "_") {
        TypePrefixesDistinct(t, u);
        TypePrefixesDistinct(u, t);
        var a, b := TypeValue(t) + "_", TypeValue(u) + "_";
        if |a| <= |b| {
          PrefixesAgree(remainder, a, b);
        } else {
          PrefixesAgree(remainder, b, a);
        }
      }
      assert t in types[1..];
      TypeWithPrefixFinds(remainder, t, types[1..]);
    }
  }

  lemma HeadOfName(prefix: string, v: string, tail: string)
    ensures var name := prefix + v + "_" + tail;
            StartsWith(name, prefix) && name[|prefix|..] == v + "_" + tail
  {
    var name := prefix + v + "_" + tail;
    assert name == prefix + (v + "_" + tail);
  }

  /** Any name built for a copy and a type is read back with that type. */
  lemma ParseNamed(copyId: int, t: ImageType, tail: string)
    ensures ParseImageType(copyId, CopyPrefix(copyId) + TypeValue(t) + "_" + tail) == Some(t)
  {
    HeadOfName(CopyPrefix(copyId), TypeValue(t), tail);
    var remainder := TypeValue(t) + "_" + tail;
    assert StartsWith(remainder, TypeValue(t) + "_") by {
      assert remainder == (TypeValue(t) + "_") + tail;
    }
    TypeWithPrefixFinds(remainder, t, AllImageTypes);
  }

  /** Every saved image is read back with the type it was saved as. */
  lemma ParseBuiltFilename(copyId: int, t: ImageType, original: Option<string>, timestamp: string, token: string)
    ensures ParseImageType(copyId, BuildFilename(copyId, t, original, timestamp, token)) == Some(t)
  {
    ParseNamed(copyId, t, FilenameTail(original, timestamp, token));
  }

  /** The value of an interior cover type, and whatever follows it, splits at `_` into `interior` first. */
  lemma InteriorFirstPiece(t: ImageType, tail: string)
    requires t == InteriorFrontCover || t == InteriorBackCover
    ensures Split(TypeValue(t) + "_" + tail, '_')[0] == "interior"
  {
    var v := TypeValue(t);
    var after := v[9..] + "_" + tail;
    assert v == "interior_" + v[9..];
    assert v + "_" + tail == "interior" + "_" + after;
    SplitAtFirstSeparator("interior", '_', after);
  }

  /** `interior` is the value of no image type. */
  lemma InteriorIsNoType()
    ensures ImageTypeOf("interior") == None
  {
  }

  lemma ParseInteriorNamedAsWritten(copyId: int, t: ImageType, tail: string)
    requires t == InteriorFrontCover || t == InteriorBackCover
    ensures ParseImageTypeAsWritten(copyId, CopyPrefix(copyId) + TypeValue(t) + "_" + tail) == None
  {
    HeadOfName(CopyPrefix(copyId), TypeValue(t), tail);
    InteriorFirstPiece(t, tail);
    InteriorIsNoType();
  }

  lemma ParseSimpleNamedAsWritten(copyId: int, t: ImageType, tail: string)
    requires t != InteriorFrontCover && t != InteriorBackCover
    ensures ParseImageTypeAsWritten(copyId, CopyPrefix(copyId) + TypeValue(t) + "_" + tail) == Some(t)
  {
    HeadOfName(CopyPrefix(copyId), TypeValue(t), tail);
    TypeValueUnderscore(t);
    SplitAtFirstSeparator(TypeValue(t), '_', tail);
    ImageTypeOfValue(t);
  }

  /** As written, an image saved with an interior cover type is not recognised: its value is cut at its own `_`. */
  lemma InteriorTypesAreNotParsed(copyId: int, t: ImageType, original: Option<string>, timestamp: string, token: string)
    requires t == InteriorFrontCover || t == InteriorBackCover
    ensures ParseImageTypeAsWritten(copyId, BuildFilename(copyId, t, original, timestamp, token)) == None
  {
    ParseInteriorNamedAsWritten(copyId, t, FilenameTail(original, timestamp, token));
  }

  /** As written, types without `_` in their value are recognised. */
  lemma SimpleTypesAreParsed(copyId: int, t: ImageType, original: Option<string>, timestamp: string, token: string)
    requires t != InteriorFrontCover && t != InteriorBackCover
    ensures ParseImageTypeAsWritten(copyId, BuildFilename(copyId, t, original, timestamp, token)) == Some(t)
  {
    ParseSimpleNamedAsWritten(copyId, t, FilenameTail(original, timestamp, token));
  }

  lemma OtherCopyNamed(copyId: int, other: int, rest: string)
    requires copyId != other
    ensures !StartsWith(CopyPrefix(other) + rest, CopyPrefix(copyId))
  {
    var name := CopyPrefix(other) + rest;
    var p, q := CopyPrefix(copyId), CopyPrefix(other);
    if StartsWith(name, p) {
      assert StartsWith(name, q);
      var a, b := IntToString(copyId), IntToString(other);
      if |p| <= |q| {
        PrefixesAgree(name, p, q);
        CopyPrefixesDiffer(a, b);
      } else {
        PrefixesAgree(name, q, p);
        CopyPrefixesDiffer(b, a);
      }
      IntToStringInjective(copyId, other);
    }
  }

  /** Files of another copy are never taken for this copy's (copy 5 does not see copy 55's images). */
  lemma OtherCopiesAreNotParsed(copyId: int, other: int, t: ImageType, original: Option<string>, timestamp: string, token: string)
    requires copyId != other
    ensures ParseImageType(copyId, BuildFilename(other, t, original, timestamp, token)) == None
  {
    var rest := TypeValue(t) + "_" + FilenameTail(original, timestamp, token);
    OtherCopyNamed(copyId, other, rest);
    assert BuildFilename(other, t, original, timestamp, token) == CopyPrefix(other) + rest;
  }

  /** `copy{a}_` begins `copy{b}_` only if the numbers are written the same. */
  lemma CopyPrefixesDiffer(a: string, b: string)
    requires forall k :: 0 <= k < |b| ==> b[k] != '_'
    requires StartsWith("copy" + b + "_", "copy" + a + "_")
    ensures a == b
  {
    var p, q := "copy" + a + "_", "copy" + b + "_";
    assert p[|p| - 1] == '_';
    assert |p| - 1 < |q|;
    assert q[|p| - 1] == '_';
    assert |a| == |b|;
    assert a == p[4..|p| - 1] == q[4..|q| - 1] == b;
  }

  /** `_is_safe_filename`, in the order of its checks. */
  function IsSafeFilename(name: string): bool {
    if name == "" then false
    else if name[0] == '/' then false
    else if PathName(name) != name then false
    else if ".." in PathComponents(name) then false
    else if '/' in name || '\\' in name then false
    else true
  }

  /** A name is accepted exactly when it is one real directory entry without a separator. */
  lemma IsSafeFilenameIff(name: string)
    ensures IsSafeFilename(name) <==> name != "" && '/' !in name && '\\' !in name && name != "." && name != ".."
  {
    if name != "" && '/' !in name {
      SplitWithoutSeparator(name, '/');
      assert Split(name, '/') == [name];
      if name != "." {
        assert Kept([name]) == [name] + Kept([]);
        assert PathComponents(name) == [name];
      } else {
        assert Kept([name]) == [] + Kept([]);
        assert PathName(name) == "";
      }
    }
  }

  // ----- Ordering of file names -----

  /** Python's `<` on strings: code point by code point, a proper prefix first. */
  predicate StrLess(a: string, b: string)
    decreases |a|
  {
    if a == [] then b != []
    else if b == [] then false
    else a[0] < b[0] || (a[0] == b[0] && StrLess(a[1..], b[1..]))
  }

  lemma {:induction false} StrLessIrreflexive(a: string)
    ensures !StrLess(a, a)
    decreases |a|
  {
    if a != [] {
      StrLessIrreflexive(a[1..]);
    }
  }

  lemma {:induction false} StrLessTransitive(a: string, b: string, c: string)
    requires StrLess(a, b) && StrLess(b, c)
    ensures StrLess(a, c)
    decreases |a|
  {
    if a != [] && a[0] == b[0] && b[0] == c[0] {
      StrLessTransitive(a[1..], b[1..], c[1..]);
    }
  }

  lemma {:induction false} StrLessTotal(a: string, b: string)
    requires a != b
    ensures StrLess(a, b) || StrLess(b, a)
    decreases |a|
  {
    if a != [] && b != [] && a[0] == b[0] {
      assert a == [a[0]] + a[1..] && b == [b[0]] + b[1..];
      StrLessTotal(a[1..], b[1..]);
    }
  }

  predicate IsLeast(x: string, s: set<string>) {
    x in s && forall y :: y in s && y != x ==> StrLess(x, y)
  }

  lemma {:induction false} HasLeast(s: set<string>) returns (m: string)
    requires s != {}
    ensures IsLeast(m, s)
    decreases |s|
  {
    var x :| x in s;
    if s == {x} {
      m := x;
    } else {
      var n := HasLeast(s - {x});
      if StrLess(x, n) {
        m := x;
        forall y | y in s && y != x ensures StrLess(x, y) {
          if y != n {
            StrLessTransitive(x, n, y);
          }
        }
      } else {
        StrLessTotal(x, n);
        m := n;
      }
    }
  }

  // ----- The image root -----

  /** A file under the image root: series directory, issue directory, file name. */
  datatype Location = Location(seriesDir: string, issueDir: string, name: string)

  /** The directory of a copy's issue: series directory and issue directory. */
  datatype Directory = Directory(seriesDir: string, issueDir: string)

  function In(dir: Directory, name: string): Location { Location(dir.seriesDir, dir.issueDir, name) }

  /** `str(destination.relative_to(root))` */
  function RelativePath(l: Location): string { l.seriesDir + "/" + l.issueDir + "/" + l.name }

  /** `root / _series_directory(…) / _issue_directory(…)`, relative to the root. */
  function CopyDirectory(context: ImageContext): Directory {
    Directory(SeriesDirectory(context.seriesTitle, context.seriesId),
              IssueDirectory(context.issueNumber, context.issueVariant, context.issueId))
  }

  type Files = map<Location, seq<byte>>

  /** The names `_iter_image_files` yields: files of the directory that begin with the copy's prefix. */
  function CopyFiles(files: Files, dir: Directory, copyId: int): set<string> {
    set l | l in files && l.seriesDir == dir.seriesDir && l.issueDir == dir.issueDir && StartsWith(l.name, CopyPrefix(copyId)) :: l.name
  }

  lemma CopyFilesAt(files: Files, dir: Directory, copyId: int, name: string)
    ensures name in CopyFiles(files, dir, copyId) <==> In(dir, name) in files && StartsWith(name, CopyPrefix(copyId))
  {
    if name in CopyFiles(files, dir, copyId) {
      var l :| l in files && l.seriesDir == dir.seriesDir && l.issueDir == dir.issueDir && StartsWith(l.name, CopyPrefix(copyId)) && l.name == name;
      assert l == In(dir, name);
    }
  }

  /** The names `_list_images_sync` reports: the copy's files whose type can be read. */
  function ListedNames(files: Files, dir: Directory, copyId: int): set<string> {
    set n | n in CopyFiles(files, dir, copyId) && ParseImageType(copyId, n).Some?
  }

  /** The names `_delete_images_by_type_sync` removes. */
  function DoomedNames(files: Files, dir: Directory, copyId: int, imageType: ImageType, exclude: set<string>): set<string> {
    set n | n in CopyFiles(files, dir, copyId) && n !in exclude && ParseImageType(copyId, n) == Some(imageType)
  }

  /** The files left after removing `names` from the directory. */
  function Without(files: Files, dir: Directory, names: set<string>): Files {
    map l | l in files && !(l.seriesDir == dir.seriesDir && l.issueDir == dir.issueDir && l.name in names) :: files[l]
  }

  /** The record `_list_images_sync` builds for a listed file. */
  function ListedImage(context: ImageContext, dir: Directory, name: string): ComicImage
    requires ParseImageType(context.copyId, name).Some?
  {
    ComicImage(context.seriesId, context.issueId, context.copyId, ParseImageType(context.copyId, name).value,
               name, RelativePath(In(dir, name)))
  }

  predicate SortedByName(images: seq<ComicImage>) {
    forall i, j :: 0 <= i < j < |images| ==> StrLess(images[i].fileName, images[j].fileName)
  }

  /** `images` lists exactly `names`, each once, in name order, as `ListedImage` describes it. */
  predicate ListsExactly(images: seq<ComicImage>, names: set<string>, context: ImageContext, dir: Directory) {
    && SortedByName(images)
    && (forall i :: 0 <= i < |images| ==>
          && images[i].fileName in names
          && ParseImageType(context.copyId, images[i].fileName).Some?
          && images[i] == ListedImage(context, dir, images[i].fileName))
    && (forall n :: n in names ==> exists i :: 0 <= i < |images| && images[i].fileName == n)
  }

  lemma ListsAppend(images: seq<ComicImage>, names: set<string>, context: ImageContext, dir: Directory, name: string)
    requires ListsExactly(images, names, context, dir)
    requires ParseImageType(context.copyId, name).Some?
    requires forall i :: 0 <= i < |images| ==> StrLess(images[i].fileName, name)
    ensures ListsExactly(images + [ListedImage(context, dir, name)], names + {name}, context, dir)
  {
    var entry := ListedImage(context, dir, name);
    AppendSorted(images, entry);
    AppendDescribed(images, names, context, dir, entry);
    AppendCovers(images, names, entry);
  }

  lemma AppendSorted(images: seq<ComicImage>, entry: ComicImage)
    requires SortedByName(images)
    requires forall i :: 0 <= i < |images| ==> StrLess(images[i].fileName, entry.fileName)
    ensures SortedByName(images + [entry])
  {
    var more := images + [entry];
    forall i, j | 0 <= i < j < |more| ensures StrLess(more[i].fileName, more[j].fileName) {
      assert more[i] == images[i];
      if j < |images| {
        assert more[j] == images[j];
      }
    }
  }

  lemma AppendDescribed(images: seq<ComicImage>, names: set<string>, context: ImageContext, dir: Directory, entry: ComicImage)
    requires forall i :: 0 <= i < |images| ==>
               && images[i].fileName in names
               && ParseImageType(context.copyId, images[i].fileName).Some?
               && images[i] == ListedImage(context, dir, images[i].fileName)
    requires ParseImageType(context.copyId, entry.fileName).Some?
    requires entry == ListedImage(context, dir, entry.fileName)
    ensures var more := images + [entry];
            forall i :: 0 <= i < |more| ==>
              && more[i].fileName in names + {entry.fileName}
              && ParseImageType(context.copyId, more[i].fileName).Some?
              && more[i] == ListedImage(context, dir, more[i].fileName)
  {
    var more := images + [entry];
    forall i | 0 <= i < |more|
      ensures && more[i].fileName in names + {entry.fileName}
              && ParseImageType(context.copyId, more[i].fileName).Some?
              && more[i] == ListedImage(context, dir, more[i].fileName)
    {
      if i < |images| {
        assert more[i] == images[i];
      } else {
        assert more[i] == entry;
      }
    }
  }

  lemma AppendCovers(images: seq<ComicImage>, names: set<string>, entry: ComicImage)
    requires forall n :: n in names ==> exists i :: 0 <= i < |images| && images[i].fileName == n
    ensures var more := images + [entry];
            forall n :: n in names + {entry.fileName} ==> exists i :: 0 <= i < |more| && more[i].fileName == n
  {
    var more := images + [entry];
    forall n | n in names + {entry.fileName} ensures exists i :: 0 <= i < |more| && more[i].fileName == n {
      if n == entry.fileName {
        assert more[|images|].fileName == n;
      } else {
        var i :| 0 <= i < |images| && images[i].fileName == n;
        assert more[i].fileName == n;
      }
    }
  }

  /** The names of `images` all sort before every name still to be looked at. */
  predicate Below(images: seq<ComicImage>, remaining: set<string>) {
    forall i, n :: 0 <= i < |images| && n in remaining ==> StrLess(images[i].fileName, n)
  }

  /** The state of the listing loop: `seen` taken from `all`, and those of them in `listed` listed. */
  predicate Listing(images: seq<ComicImage>, listed: set<string>, seen: set<string>, remaining: set<string>,
                    all: set<string>, context: ImageContext, dir: Directory) {
    && remaining + seen == all && remaining !! seen
    && ListsExactly(images, listed * seen, context, dir)
    && Below(images, remaining)
  }

  /** One step of the listing loop: the least remaining name is taken and, when readable, listed. */
  lemma ListStep(images: seq<ComicImage>, listed: set<string>, seen: set<string>, remaining: set<string>,
                 all: set<string>, context: ImageContext, dir: Directory, name: string)
    requires Listing(images, listed, seen, remaining, all, context, dir)
    requires IsLeast(name, remaining)
    requires name in listed <==> ParseImageType(context.copyId, name).Some?
    ensures ParseImageType(context.copyId, name).None? ==>
              Listing(images, listed, seen + {name}, remaining - {name}, all, context, dir)
    ensures ParseImageType(context.copyId, name).Some? ==>
              Listing(images + [ListedImage(context, dir, name)], listed, seen + {name}, remaining - {name}, all, context, dir)
  {
    if name in listed {
      assert listed * (seen + {name}) == listed * seen + {name};
      ListsAppend(images, listed * seen, context, dir, name);
    } else {
      assert listed * (seen + {name}) == listed * seen;
    }
  }

  lemma WithoutUnion(files: Files, dir: Directory, a: set<string>, b: set<string>)
    ensures Without(Without(files, dir, a), dir, b) == Without(files, dir, a + b)
  {
  }

  class ImageRoot {
    var files: Files

    constructor ()
      ensures files == map[]
    {
      files := map[];
    }

    /** `save_copy_image`: writes the payload under the built name and describes it. */
    method SaveCopyImage(context: ImageContext, payload: seq<byte>, originalFilename: Option<string>,
                         timestamp: string, token: string) returns (image: ComicImage)
      modifies this
      ensures var name := BuildFilename(context.copyId, context.imageType, originalFilename, timestamp, token);
              && files == old(files)[In(CopyDirectory(context), name) := payload]
              && image == ComicImage(context.seriesId, context.issueId, context.copyId, context.imageType,
                                     name, RelativePath(In(CopyDirectory(context), name)))
    {
      var dir := CopyDirectory(context);
      var name := BuildFilename(context.copyId, context.imageType, originalFilename, timestamp, token);
      var destination := In(dir, name);
      files := files[destination := payload];
      image := ComicImage(context.seriesId, context.issueId, context.copyId, context.imageType,
                          name, RelativePath(destination));
    }

    /** `_list_images_sync`: the readable images among the copy's files, in name order. */
    method ListImagesIn(dir: Directory, copyId: int, context: ImageContext) returns (images: seq<ComicImage>)
      requires copyId == context.copyId
      ensures ListsExactly(images, ListedNames(files, dir, copyId), context, dir)
    {
      var remaining := CopyFiles(files, dir, copyId);
      ghost var all := remaining;
      ghost var listed := ListedNames(files, dir, copyId);
      assert listed <= all;
      images := [];
      ghost var seen: set<string> := {};
      while remaining != {}
        invariant Listing(images, listed, seen, remaining, all, context, dir)
        decreases |remaining|
      {
        ghost var least := HasLeast(remaining);
        var name :| name in remaining && IsLeast(name, remaining);
        ListStep(images, listed, seen, remaining, all, context, dir, name);
        remaining := remaining - {name};
        seen := seen + {name};
        var imageType := ParseImageType(copyId, name);
        if imageType.None? {
          continue;
        }
        images := images + [ListedImage(context, dir, name)];
      }
      assert seen == all;
      assert listed * seen == listed;
    }

    /** `list_copy_images` */
    method ListCopyImages(context: ImageContext) returns (images: seq<ComicImage>)
      ensures ListsExactly(images, ListedNames(files, CopyDirectory(context), context.copyId), context, CopyDirectory(context))
    {
      var dir := CopyDirectory(context);
      images := ListImagesIn(dir, context.copyId, context);
    }

    /** `_delete_images_by_type_sync`: removes the copy's files of that type not in `exclude`, and counts them. */
    method DeleteImagesIn(dir: Directory, copyId: int, imageType: ImageType, exclude: set<string>) returns (removed: nat)
      modifies this
      ensures removed == |DoomedNames(old(files), dir, copyId, imageType, exclude)|
      ensures files == Without(old(files), dir, DoomedNames(old(files), dir, copyId, imageType, exclude))
    {
      ghost var original := files;
      ghost var doomed := DoomedNames(files, dir, copyId, imageType, exclude);
      var pending := CopyFiles(files, dir, copyId);
      ghost var all := pending;
      assert doomed <= all;
      removed := 0;
      ghost var deleted: set<string> := {};
      while pending != {}
        invariant pending <= all
        invariant deleted <= doomed && doomed - deleted <= pending && deleted !! pending
        invariant removed == |deleted|
        invariant files == Without(original, dir, deleted)
        decreases |pending|
      {
        var name :| name in pending;
        pending := pending - {name};
        if name in exclude {
          continue;
        }
        if ParseImageType(copyId, name) != Some(imageType) {
          continue;
        }
        assert name in doomed;
        WithoutUnion(original, dir, deleted, {name});
        files := Without(files, dir, {name});
        deleted := deleted + {name};
        removed := removed + 1;
      }
      assert deleted == doomed;
    }

    /** `delete_copy_images_by_type`; a missing `exclude` is the empty set. */
    method DeleteCopyImagesByType(context: ImageContext, imageType: ImageType, exclude: set<string>) returns (removed: nat)
      modifies this
      ensures var dir := CopyDirectory(context);
              && removed == |DoomedNames(old(files), dir, context.copyId, imageType, exclude)|
              && files == Without(old(files), dir, DoomedNames(old(files), dir, context.copyId, imageType, exclude))
    {
      var dir := CopyDirectory(context);
      removed := DeleteImagesIn(dir, context.copyId, imageType, exclude);
    }

    /** `delete_copy_image_by_name`: refuses an unsafe name before touching anything, else removes the file if it is there. */
    method DeleteCopyImageByName(context: ImageContext, fileName: string) returns (r: Result<bool, string>)
      modifies this
      ensures !IsSafeFilename(fileName) ==> r == Err("invalid image file name") && files == old(files)
      ensures IsSafeFilename(fileName) ==> r == Ok(In(CopyDirectory(context), fileName) in old(files))
      ensures r == Ok(true) ==> files == Without(old(files), CopyDirectory(context), {fileName})
      ensures r != Ok(true) ==> files == old(files)
    {
      if !IsSafeFilename(fileName) {
        return Err("invalid image file name");
      }
      var dir := CopyDirectory(context);
      var destination := In(dir, fileName);
      if destination !in files {
        return Ok(false);
      }
      files := Without(files, dir, {fileName});
      r := Ok(true);
    }
  }

  /** A saved image is among those listed afterwards, with its own type. */
  lemma SavedImageIsListed(files: Files, context: ImageContext, payload: seq<byte>,
                           original: Option<string>, timestamp: string, token: string)
    ensures var dir := CopyDirectory(context);
            var name := BuildFilename(context.copyId, context.imageType, original, timestamp, token);
            && name in ListedNames(files[In(dir, name) := payload], dir, context.copyId)
            && ListedImage(context, dir, name).imageType == context.imageType
  {
    var dir := CopyDirectory(context);
    var name := BuildFilename(context.copyId, context.imageType, original, timestamp, token);
    ParseBuiltFilename(context.copyId, context.imageType, original, timestamp, token);
    var after := files[In(dir, name) := payload];
    HeadOfName(CopyPrefix(context.copyId), TypeValue(context.imageType), FilenameTail(original, timestamp, token));
    CopyFilesAt(after, dir, context.copyId, name);
  }
}

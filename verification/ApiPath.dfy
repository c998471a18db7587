/** Paths as the providers see them (support/include/utils/path.hpp and string.hpp, non-Windows branches). */
module ApiPath {
  import opened Bytes

  // ---- in-place editing ----

  predicate OccursAt(s: string, find: string, i: nat) {
    i + |find| <= |s| && s[i..i + |find|] == find
  }

  predicate Contains(s: string, find: string) {
    exists i :: 0 <= i <= |s| && OccursAt(s, find, i)
  }

  method Find(s: string, find: string, start: nat) returns (pos: Option<nat>)
    ensures pos.Some? ==> start <= pos.value && OccursAt(s, find, pos.value)
    ensures forall i :: start <= i < (if pos.Some? then pos.value else |s| + 1) ==> !OccursAt(s, find, i)
  {
    var i := start;
    while i + |find| <= |s|
      invariant start <= i
      invariant forall k :: start <= k < i ==> !OccursAt(s, find, k)
    {
      if s[i..i + |find|] == find {
        return Some(i);
      }
      i := i + 1;
    }
    return None;
  }

  /** Every occurrence replaced, from left to right, without looking at replaced text again. */
  function Replaced(s: string, find: string, with: string): string
    requires find != ""
  {
    if s == "" then ""
    else if OccursAt(s, find, 0) then with + Replaced(s[|find|..], find, with)
    else [s[0]] + Replaced(s[1..], find, with)
  }

  lemma HeadAndTail(s: string, n: nat)
    requires 0 < n <= |s|
    ensures s[..n] == [s[0]] + s[1..][..n - 1] && s[1..][n - 1..] == s[n..]
  {
    var a, b := s[..n], [s[0]] + s[1..][..n - 1];
    assert |a| == |b| && forall k :: 0 <= k < n ==> a[k] == b[k];
  }

  lemma {:induction false} ReplacedSkips(s: string, find: string, with: string, n: nat)
    requires find != "" && n <= |s| && forall i :: 0 <= i < n ==> !OccursAt(s, find, i)
    ensures Replaced(s, find, with) == s[..n] + Replaced(s[n..], find, with)
    decreases n
  {
    hide OccursAt;
    if n == 0 {
      assert s[0..] == s;
    } else {
      forall i | 0 <= i < n - 1
        ensures !OccursAt(s[1..], find, i)
      {
        SuffixOccurs(s, find, 1, i);
      }
      ReplacedSkips(s[1..], find, with, n - 1);
      assert !OccursAt(s, find, 0);
      HeadAndTail(s, n);
    }
  }

  method Replace(src: string, find: string, with: string) returns (s: string)
    requires find != ""
    ensures s == Replaced(src, find, with)
  {
    s := src;
    var start: nat := 0;
    ghost var rest := src;
    assert src[0..] == src;
    while true
      invariant start <= |s| && s[start..] == rest
      invariant s[..start] + Replaced(rest, find, with) == Replaced(src, find, with)
      decreases |rest|
    {
      var pos := Find(s, find, start);
      if pos.None? {
        NoOccurrence(s, find, with, start);
        break;
      }
      OccurrenceAt(s, find, with, start, pos.value);
      rest := s[pos.value + |find|..];
      s := s[..pos.value] + with + s[pos.value + |find|..];
      start := pos.value + |with|;
    }
  }

  lemma SuffixOccurs(s: string, find: string, start: nat, i: nat)
    requires start <= |s|
    ensures OccursAt(s[start..], find, i) <==> OccursAt(s, find, start + i)
  {
    if start + i + |find| <= |s| {
      assert s[start..][i..i + |find|] == s[start + i..start + i + |find|];
    }
  }

  lemma NoOccurrence(s: string, find: string, with: string, start: nat)
    requires find != "" && start <= |s| && forall i :: start <= i < |s| + 1 ==> !OccursAt(s, find, i)
    ensures s[..start] + Replaced(s[start..], find, with) == s
  {
    var rest := s[start..];
    forall i | 0 <= i < |rest|
      ensures !OccursAt(rest, find, i)
    {
      SuffixOccurs(s, find, start, i);
    }
    ReplacedSkips(rest, find, with, |rest|);
    assert rest[..|rest|] == rest && rest[|rest|..] == "";
  }

  lemma ReplacedAt(s: string, find: string, with: string)
    requires find != "" && OccursAt(s, find, 0)
    ensures Replaced(s, find, with) == with + Replaced(s[|find|..], find, with)
  {
  }

  lemma OccurrenceAt(s: string, find: string, with: string, start: nat, pos: nat)
    requires find != "" && start <= pos && OccursAt(s, find, pos)
    requires forall i :: start <= i < pos ==> !OccursAt(s, find, i)
    ensures s[..start] + Replaced(s[start..], find, with) ==
            s[..pos] + with + Replaced(s[pos + |find|..], find, with)
  {
    hide Replaced, OccursAt;
    OccursInside(s, find, pos);
    FirstOccurrence(s, find, with, start, pos);
    Glue(s[..start], s[start..pos], with, Replaced(s[pos + |find|..], find, with), Replaced(s[start..], find, with));
    assert s[..start] + s[start..pos] == s[..pos];
  }

  lemma FirstOccurrence(s: string, find: string, with: string, start: nat, pos: nat)
    requires find != "" && start <= pos && OccursAt(s, find, pos) && pos + |find| <= |s|
    requires forall i :: start <= i < pos ==> !OccursAt(s, find, i)
    ensures Replaced(s[start..], find, with) == s[start..pos] + (with + Replaced(s[pos + |find|..], find, with))
  {
    hide Replaced, OccursAt;
    var rest := s[start..];
    forall i | 0 <= i < pos - start
      ensures !OccursAt(rest, find, i)
    {
      SuffixOccurs(s, find, start, i);
    }
    ReplacedSkips(rest, find, with, pos - start);
    SuffixOfSuffix(s, start, pos - start);
    assert rest[..pos - start] == s[start..pos];
    ReplacedHere(s, find, with, pos);
  }

  lemma ReplacedHere(s: string, find: string, with: string, pos: nat)
    requires find != "" && OccursAt(s, find, pos) && pos + |find| <= |s|
    ensures Replaced(s[pos..], find, with) == with + Replaced(s[pos + |find|..], find, with)
  {
    hide Replaced, OccursAt;
    SuffixOccurs(s, find, pos, 0);
    ReplacedAt(s[pos..], find, with);
    SuffixOfSuffix(s, pos, |find|);
  }

  lemma OccursInside(s: string, find: string, pos: nat)
    requires OccursAt(s, find, pos)
    ensures pos + |find| <= |s|
  {
  }

  lemma Glue(a: string, b: string, c: string, d: string, e: string)
    requires e == b + (c + d)
    ensures a + e == a + b + c + d
  {
  }

  lemma SuffixOfSuffix(s: string, i: nat, n: nat)
    requires i + n <= |s|
    ensures s[i..][n..] == s[i + n..] && s[..i] + s[i..][..n] == s[..i + n]
  {
    var a, b := s[i..][n..], s[i + n..];
    assert |a| == |b| && forall k :: 0 <= k < |a| ==> a[k] == b[k];
  }

  /** `right_trim`. */
  function Trimmed(s: string, c: char): (r: string)
    ensures r <= s && (r == "" || r[|r| - 1] != c)
    ensures forall i :: |r| <= i < |s| ==> s[i] == c
  {
    if s == "" || s[|s| - 1] != c then s else Trimmed(s[..|s| - 1], c)
  }

  method RightTrim(s: string, c: char) returns (r: string)
    ensures r == Trimmed(s, c)
  {
    var n := |s|;
    assert s[..n] == s;
    while n > 0 && s[n - 1] == c
      invariant n <= |s|
      invariant Trimmed(s[..n], c) == Trimmed(s, c)
    {
      assert s[..n][..n - 1] == s[..n - 1];
      n := n - 1;
    }
    r := s[..n];
  }

  // ---- format_path ----

  function Slashed(s: string): (r: string)
    ensures |r| == |s| && '\\' !in r
  {
    if s == "" then "" else [if s[0] == '\\' then '/' else s[0]] + Slashed(s[1..])
  }

  predicate IsSeparator(c: char) {
    c == '/' || c == '\\'
  }

  lemma {:induction false} SlashedIs(s: string)
    ensures |Slashed(s)| == |s|
    ensures forall i :: 0 <= i < |s| ==> Slashed(s)[i] == if IsSeparator(s[i]) then '/' else s[i]
  {
    if s != "" {
      SlashedIs(s[1..]);
    }
  }

  predicate NoDoubleSlash(s: string) {
    forall i :: 0 <= i < |s| - 1 && s[i] == '/' ==> s[i + 1] != '/'
  }

  /** Every run of slashes becomes a single one. */
  function Collapsed(s: string): (r: string)
    ensures |r| <= |s| && (r == "" <==> s == "") && (s != "" ==> r[0] == s[0])
    ensures forall c :: c in r ==> c in s
  {
    if s == "" then ""
    else if |s| >= 2 && s[0] == '/' && s[1] == '/' then Collapsed(s[1..])
    else [s[0]] + Collapsed(s[1..])
  }

  function Formatted(s: string): string {
    var c := Collapsed(Slashed(s));
    if c == "/" then c else Trimmed(c, '/')
  }

  lemma {:induction false} ReplaceBackslash(s: string)
    ensures Replaced(s, "\\", "/") == Slashed(s)
  {
    if s != "" {
      ReplaceBackslash(s[1..]);
      assert OccursAt(s, "\\", 0) <==> s[0] == '\\' by {
        assert s[0..1] == [s[0]];
      }
    }
  }

  lemma CollapseBehindSlash(s: string)
    ensures Collapsed("/" + s) == if s != "" && s[0] == '/' then Collapsed(s) else "/" + Collapsed(s)
  {
    assert ("/" + s)[1..] == s;
  }

  lemma DoubleSlashAt(s: string)
    requires s != ""
    ensures OccursAt(s, "//", 0) <==> |s| >= 2 && s[0] == '/' && s[1] == '/'
  {
    if |s| >= 2 {
      assert s[0..2] == [s[0], s[1]];
    }
  }

  /** One pass over the double slashes does not change what is left in the end. */
  lemma {:induction false} CollapsePass(s: string)
    ensures Collapsed(Replaced(s, "//", "/")) == Collapsed(s)
    ensures |Replaced(s, "//", "/")| <= |s|
    ensures s != "" ==> Replaced(s, "//", "/") != "" && Replaced(s, "//", "/")[0] == s[0]
  {
    if s != "" {
      DoubleSlashAt(s);
      if OccursAt(s, "//", 0) {
        CollapsePass(s[2..]);
        CollapseBehindSlash(Replaced(s[2..], "//", "/"));
        CollapseBehindSlash(s[2..]);
        assert s[1..] == "/" + s[2..];
      } else {
        CollapsePass(s[1..]);
        var r := Replaced(s[1..], "//", "/");
        assert Replaced(s, "//", "/") == [s[0]] + r;
        assert ([s[0]] + r)[1..] == r;
      }
    }
  }

  lemma {:induction false} PassShortens(s: string)
    requires Contains(s, "//")
    ensures |Replaced(s, "//", "/")| < |s|
  {
    var i :| 0 <= i <= |s| && OccursAt(s, "//", i);
    if OccursAt(s, "//", 0) {
      CollapsePass(s[2..]);
    } else {
      SuffixOccurs(s, "//", 1, i - 1);
      PassShortens(s[1..]);
    }
  }

  lemma {:induction false} NothingToCollapse(s: string)
    requires !Contains(s, "//")
    ensures Collapsed(s) == s
  {
    if s != "" {
      assert !OccursAt(s, "//", 0);
      DoubleSlashAt(s);
      assert !Contains(s[1..], "//") by {
        forall i | 0 <= i <= |s[1..]|
          ensures !OccursAt(s[1..], "//", i)
        {
          SuffixOccurs(s, "//", 1, i);
        }
      }
      NothingToCollapse(s[1..]);
    }
  }

  method FormatPath(path: string) returns (s: string)
    ensures s == Formatted(path)
  {
    s := Replace(path, "\\", "/");
    ReplaceBackslash(path);
    while true
      invariant Collapsed(s) == Collapsed(Slashed(path))
      decreases |s|
    {
      var pos := Find(s, "//", 0);
      if pos.None? {
        break;
      }
      PassShortens(s);
      CollapsePass(s);
      s := Replace(s, "//", "/");
    }
    NothingToCollapse(s);
    if s != "/" {
      s := RightTrim(s, '/');
    }
  }

  // ---- create_api_path ----

  function WithoutDotSlash(s: string): (r: string)
    ensures s != "" && s[|s| - 1] != '/' ==> r != ""
  {
    if |s| >= 2 && s[0] == '.' && s[1] == '/' then WithoutDotSlash(s[2..]) else s
  }

  const ROOTS := {"", "\\", ".", "./", "/", ".\\"}

  function Normalized(path: string): string {
    if path in ROOTS then "/"
    else
      var s := WithoutDotSlash(Formatted(path));
      if s == "" || s[0] != '/' then "/" + s else s
  }

  /** A leading slash, no backslash, no two slashes in a row, no slash at the end except alone. */
  predicate Normal(s: string) {
    && s != "" && s[0] == '/'
    && '\\' !in s
    && NoDoubleSlash(s)
    && (s == "/" || s[|s| - 1] != '/')
  }

  method CreateApiPath(path: string) returns (apiPath: string)
    ensures apiPath == Normalized(path)
  {
    if path in ROOTS {
      return "/";
    }
    apiPath := FormatPath(path);
    while |apiPath| >= 2 && apiPath[..2] == "./"
      invariant WithoutDotSlash(apiPath) == WithoutDotSlash(Formatted(path))
    {
      apiPath := apiPath[2..];
    }
    FormattedNotEmpty(path);
    if apiPath[0] != '/' {
      return "/" + apiPath;
    }
  }

  lemma {:induction false} CollapsedHasNoDouble(s: string)
    ensures NoDoubleSlash(Collapsed(s))
  {
    if s != "" {
      CollapsedHasNoDouble(s[1..]);
    }
  }

  lemma {:induction false} NoDoubleStays(s: string)
    requires NoDoubleSlash(s)
    ensures Collapsed(s) == s
  {
    if s != "" {
      NoDoubleStays(s[1..]);
    }
  }

  lemma {:induction false} NoBackslashStays(s: string)
    requires '\\' !in s
    ensures Slashed(s) == s
  {
    if s != "" {
      NoBackslashStays(s[1..]);
    }
  }

  /** What formatting leaves: no backslash, no double slash, no slash at the end unless alone. */
  lemma FormattedShape(path: string)
    ensures '\\' !in Formatted(path) && NoDoubleSlash(Formatted(path))
    ensures path != "" ==>
              Formatted(path) == "/" || (Formatted(path) != "" && Formatted(path)[|Formatted(path)| - 1] != '/')
  {
    var c := Collapsed(Slashed(path));
    CollapsedHasNoDouble(Slashed(path));
    if c != "" && c != "/" && c[|c| - 1] == '/' {
      assert c[|c| - 2] != '/';
      assert Trimmed(c, '/') == c[..|c| - 1];
    }
  }

  lemma {:induction false} DotSlashShape(s: string)
    requires '\\' !in s && NoDoubleSlash(s) && s != "" && (s == "/" || s[|s| - 1] != '/')
    ensures var r := WithoutDotSlash(s);
            '\\' !in r && NoDoubleSlash(r) && r != "" && (r == "/" || r[|r| - 1] != '/')
  {
    if |s| >= 2 && s[0] == '.' && s[1] == '/' {
      DotSlashShape(s[2..]);
    }
  }

  lemma FormattedNotEmpty(path: string)
    requires path != ""
    ensures WithoutDotSlash(Formatted(path)) != ""
  {
    FormattedShape(path);
    DotSlashShape(Formatted(path));
  }

  /** Whatever goes in, a path in normal form comes out. */
  lemma AlwaysNormal(path: string)
    ensures Normal(Normalized(path))
  {
    hide Formatted;
    if path !in ROOTS {
      FormattedShape(path);
      DotSlashShape(Formatted(path));
    }
  }

  /** The paths that stay as they are are exactly those in normal form; so normalising twice changes nothing. */
  lemma NormalStays(path: string)
    ensures Normalized(path) == path <==> Normal(path)
    ensures Normalized(Normalized(path)) == Normalized(path)
  {
    AlwaysNormal(path);
    NormalIsFixed(Normalized(path));
    if Normal(path) {
      NormalIsFixed(path);
    }
  }

  lemma NormalIsFixed(s: string)
    requires Normal(s)
    ensures Normalized(s) == s
  {
    NoBackslashStays(s);
    NoDoubleStays(s);
  }

  // ---- segments ----

  /** The non-empty pieces between slashes, `current` being the piece read so far. */
  function SegmentsFrom(current: string, s: string): seq<string>
    decreases |s|
  {
    if s == "" then (if current == "" then [] else [current])
    else if s[0] == '/' then (if current == "" then [] else [current]) + SegmentsFrom("", s[1..])
    else SegmentsFrom(current + [s[0]], s[1..])
  }

  function Segments(s: string): seq<string> {
    SegmentsFrom("", s)
  }

  function WithoutLeadingDots(segments: seq<string>): (r: seq<string>)
    ensures r == [] <==> segments == []
  {
    if |segments| > 1 && segments[0] == "." then WithoutLeadingDots(segments[1..]) else segments
  }

  lemma {:induction false} CollapsedSegments(current: string, s: string)
    ensures SegmentsFrom(current, Collapsed(s)) == SegmentsFrom(current, s)
    decreases |s|
  {
    if s != "" {
      if |s| >= 2 && s[0] == '/' && s[1] == '/' {
        CollapsedSegments(current, s[1..]);
        assert SegmentsFrom("", s[1..]) == SegmentsFrom("", s[2..]) by { assert s[1..][1..] == s[2..]; }
      } else {
        assert Collapsed(s)[1..] == Collapsed(s[1..]);
        if s[0] == '/' {
          CollapsedSegments("", s[1..]);
        } else {
          CollapsedSegments(current + [s[0]], s[1..]);
        }
      }
    }
  }

  lemma {:induction false} SlashAtEnd(current: string, s: string)
    ensures SegmentsFrom(current, s + "/") == SegmentsFrom(current, s)
    decreases |s|
  {
    if s == "" {
      assert s + "/" == "/" && "/"[1..] == "";
    } else {
      assert (s + "/")[1..] == s[1..] + "/";
      SlashAtEnd(if s[0] == '/' then "" else current + [s[0]], s[1..]);
    }
  }

  lemma {:induction false} TrimmedSegments(s: string)
    ensures Segments(Trimmed(s, '/')) == Segments(s)
  {
    if s != "" && s[|s| - 1] == '/' {
      TrimmedSegments(s[..|s| - 1]);
      SlashAtEnd("", s[..|s| - 1]);
      assert s == s[..|s| - 1] + "/";
    }
  }

  lemma FormattedSegments(path: string)
    ensures Segments(Formatted(path)) == Segments(Slashed(path))
  {
    CollapsedSegments("", Slashed(path));
    TrimmedSegments(Collapsed(Slashed(path)));
  }

  lemma SlashInFront(s: string)
    ensures Segments("/" + s) == Segments(s)
  {
    assert ("/" + s)[1..] == s;
  }

  /** A piece that has begun stays one piece, and grows unless a slash or the end follows. */
  lemma {:induction false} FirstSegment(current: string, s: string)
    requires current != ""
    ensures SegmentsFrom(current, s) != [] && current <= SegmentsFrom(current, s)[0]
    ensures SegmentsFrom(current, s)[0] == current <==> s == "" || s[0] == '/'
    decreases |s|
  {
    if s != "" && s[0] != '/' {
      FirstSegment(current + [s[0]], s[1..]);
    }
  }

  lemma PieceBegins(s: string)
    requires s != "" && s[0] != '/'
    ensures Segments(s) == SegmentsFrom([s[0]], s[1..])
  {
    assert "" + [s[0]] == [s[0]];
  }

  lemma {:induction false} DotSlashSegments(s: string)
    requires NoDoubleSlash(s) && s != "" && s[0] != '/' && s[|s| - 1] != '/'
    ensures Segments(WithoutDotSlash(s)) == WithoutLeadingDots(Segments(s))
  {
    FirstSegment([s[0]], s[1..]);
    PieceBegins(s);
    if |s| >= 2 && s[0] == '.' && s[1] == '/' {
      assert s[1..][1..] == s[2..];
      assert Segments(s) == ["."] + Segments(s[2..]);
      FirstSegment([s[2]], s[3..]);
      PieceBegins(s[2..]);
      assert s[2..][1..] == s[3..];
      DotSlashSegments(s[2..]);
    }
  }

  /** Normalising keeps the pieces of a path. Only a path that does not start with a separator loses leading
      "." pieces, all but the last piece. */
  lemma SegmentsKept(path: string)
    requires path !in ROOTS
    ensures Segments(Normalized(path)) ==
            if path[0] == '/' || path[0] == '\\' then Segments(Slashed(path))
             else WithoutLeadingDots(Segments(Slashed(path)))
  {
    hide Segments, Formatted;
    FormattedShape(path);
    FormattedSegments(path);
    FormattedStart(path);
    var f := Formatted(path);
    if f[0] != '/' {
      DotSlashSegments(f);
    }
    SlashInFront(WithoutDotSlash(f));
  }

  lemma {:induction false} NoSegments(s: string)
    ensures Segments(s) == [] <==> forall i :: 0 <= i < |s| ==> s[i] == '/'
  {
    if s != "" {
      if s[0] == '/' {
        NoSegments(s[1..]);
        assert Segments(s) == Segments(s[1..]);
        assert (forall i :: 0 <= i < |s| ==> s[i] == '/') <==> forall i :: 0 <= i < |s[1..]| ==> s[1..][i] == '/';
      } else {
        FirstSegment([s[0]], s[1..]);
        PieceBegins(s);
      }
    }
  }

  /** The root is what the empty path, ".", "./" and ".\\" stand for, and every path of separators only. */
  lemma RootExactly(path: string)
    ensures Normalized(path) == "/" <==>
            path in {"", ".", "./", ".\\"} || forall i :: 0 <= i < |path| ==> IsSeparator(path[i])
  {
    hide Segments, Slashed, Formatted, Normal;
    if path !in ROOTS {
      hide Normalized;
      SegmentsKept(path);
      AlwaysNormal(path);
      NormalIsJoined(Normalized(path));
      NoSegments("/");
      NoSegments(Slashed(path));
      SlashedIs(path);
      assert Segments(Normalized(path)) == [] <==> Segments(Slashed(path)) == [];
      assert Segments(Slashed(path)) == [] <==> forall i :: 0 <= i < |path| ==> IsSeparator(path[i]);
    }
  }

  lemma FormattedStart(path: string)
    requires path != ""
    ensures Formatted(path) != "" && (Formatted(path)[0] == '/' <==> path[0] == '/' || path[0] == '\\')
  {
    FormattedShape(path);
  }

  function Joined(segments: seq<string>): string {
    if segments == [] then "" else if |segments| == 1 then segments[0] else segments[0] + "/" + Joined(segments[1..])
  }

  lemma {:induction false} JoinedSegments(current: string, s: string)
    requires NoDoubleSlash(s) && (s == "" || s[|s| - 1] != '/')
    requires current != "" || (s != "" && s[0] != '/')
    ensures SegmentsFrom(current, s) != [] && Joined(SegmentsFrom(current, s)) == current + s
    decreases |s|
  {
    if s != "" {
      if s[0] == '/' {
        JoinedSegments("", s[1..]);
        assert s == "/" + s[1..];
        assert ([current] + SegmentsFrom("", s[1..]))[1..] == SegmentsFrom("", s[1..]);
      } else {
        JoinedSegments(current + [s[0]], s[1..]);
        assert current + [s[0]] + s[1..] == current + s;
      }
    }
  }

  /** A path in normal form is a slash and its pieces, with single slashes between them. */
  lemma NormalIsJoined(s: string)
    requires Normal(s)
    ensures s == "/" + Joined(Segments(s))
  {
    assert s == "/" + s[1..];
    SlashInFront(s[1..]);
    if s != "/" {
      JoinedSegments("", s[1..]);
      assert "" + s[1..] == s[1..];
    }
  }

  lemma {:induction false} PieceThenSlash(current: string, piece: string, s: string)
    requires '/' !in piece && current + piece != ""
    ensures SegmentsFrom(current, piece + "/" + s) == [current + piece] + SegmentsFrom("", s)
    decreases |piece|
  {
    var whole := piece + "/" + s;
    if piece == "" {
      assert whole == "/" + s && whole[1..] == s && current + piece == current;
    } else {
      assert whole[0] == piece[0] && whole[1..] == piece[1..] + "/" + s;
      assert current + [piece[0]] + piece[1..] == current + piece;
      PieceThenSlash(current + [piece[0]], piece[1..], s);
    }
  }

  predicate ArePieces(names: seq<string>) {
    forall i :: 0 <= i < |names| ==> names[i] != "" && '/' !in names[i]
  }

  lemma {:induction false} SegmentsOfJoined(names: seq<string>)
    requires ArePieces(names)
    ensures Segments(Joined(names)) == names
  {
    if |names| == 1 {
      OnePiece("", names[0]);
      assert "" + names[0] == names[0];
    } else if names != [] {
      SegmentsOfJoined(names[1..]);
      PieceThenSlash("", names[0], Joined(names[1..]));
      assert "" + names[0] == names[0];
    }
  }

  lemma {:induction false} JoinedChars(names: seq<string>, c: char)
    requires c != '/' && forall i :: 0 <= i < |names| ==> c !in names[i]
    ensures c !in Joined(names)
  {
    if |names| > 1 {
      JoinedChars(names[1..], c);
    }
  }

  lemma RootSegments(path: string)
    requires path in ROOTS && '\\' !in path
    ensures Segments(path) == [] || Segments(path) == ["."]
  {
    OnePiece("", ".");
    assert "" + "." == ".";
    SlashAtEnd("", ".");
    assert "." + "/" == "./";
    SlashInFront("");
    assert "/" + "" == "/";
  }

  predicate ArePlainNames(names: seq<string>) {
    names != [] && ArePieces(names) && names[0] != "." && forall i :: 0 <= i < |names| ==> '\\' !in names[i]
  }

  /** Joining pieces and normalising only puts a slash in front, unless the first piece is ".". */
  lemma JoinedNormal(names: seq<string>)
    requires ArePlainNames(names)
    ensures Normalized(Joined(names)) == "/" + Joined(names)
  {
    hide Segments, Normalized, Joined;
    var path := Joined(names);
    SegmentsOfJoined(names);
    JoinedChars(names, '\\');
    NoBackslashStays(path);
    if path in ROOTS {
      RootSegments(path);
    }
    JoinedStart(names);
    SegmentsKept(path);
    AlwaysNormal(path);
    NormalIsJoined(Normalized(path));
  }

  lemma JoinedStart(names: seq<string>)
    requires ArePieces(names) && names != []
    ensures Joined(names) != "" && Joined(names)[0] == names[0][0] && Joined(names)[0] != '/'
  {
    assert names[0][0] in names[0];
  }

  // ---- get_parent_api_path ----

  /** The length of the prefix that ends with the final slash. */
  function ThroughLastSlash(s: string): (n: nat)
    ensures n <= |s| && (n > 0 ==> s[n - 1] == '/') && (forall i :: n <= i < |s| ==> s[i] != '/')
  {
    if s == "" then 0 else if s[|s| - 1] == '/' then |s| else ThroughLastSlash(s[..|s| - 1])
  }

  function Parent(path: string): string {
    var s := Trimmed(path, '/');
    if s == "" then Normalized(path) else Normalized(s[..ThroughLastSlash(s)])
  }

  method GetParentApiPath(path: string) returns (parent: string)
    ensures parent == Parent(path)
  {
    var s := RightTrim(path, '/');
    if s == "/" || s == "" {
      parent := CreateApiPath(path);
      return;
    }
    var n := |s|;
    assert s[..n] == s;
    while n > 0 && s[n - 1] != '/'
      invariant n <= |s|
      invariant ThroughLastSlash(s[..n]) == ThroughLastSlash(s)
    {
      assert s[..n][..n - 1] == s[..n - 1];
      n := n - 1;
    }
    parent := CreateApiPath(s[..n]);
  }

  predicate OnlySlashes(s: string) {
    forall i :: 0 <= i < |s| ==> s[i] == '/'
  }

  lemma TrimmedBack(s: string, slashes: string)
    requires OnlySlashes(slashes) && (s == "" || s[|s| - 1] != '/')
    ensures Trimmed(s + slashes, '/') == s
  {
    var whole := s + slashes;
    var r := Trimmed(whole, '/');
    assert forall i :: |s| <= i < |whole| ==> whole[i] == '/';
    assert s != "" ==> whole[|s| - 1] == s[|s| - 1];
    assert whole[..|s|] == s;
  }

  /** The parent of any path, whatever its form: what stands in front of its final piece, normalised; the root for
      a path of one piece or of slashes only. */
  lemma ParentIs(front: string, last: string, slashes: string)
    requires OnlySlashes(slashes) && last != "" && '/' !in last
    ensures Parent(front + "/" + last + slashes) == Normalized(front + "/")
    ensures Parent(last + slashes) == "/" && Parent(slashes) == "/"
  {
    hide Trimmed, ThroughLastSlash;
    TrimmedBack(front + "/" + last, slashes);
    TrimmedBack(last, slashes);
    TrimmedBack("", slashes);
    assert "" + slashes == slashes;
    var s := front + "/" + last;
    LastSlashAt(front, last);
    assert s[..|front| + 1] == front + "/" && last[..0] == "";
    if slashes != "" && slashes !in ROOTS {
      hide Normalized, Formatted;
      RootExactly(slashes);
    }
  }

  lemma LastSlashIs(s: string, n: nat)
    requires n <= |s| && (n > 0 ==> s[n - 1] == '/') && forall i :: n <= i < |s| ==> s[i] != '/'
    ensures ThroughLastSlash(s) == n
  {
    hide ThroughLastSlash;
    var m := ThroughLastSlash(s);
    assert m > 0 ==> s[m - 1] == '/';
  }

  lemma LastSlashAt(front: string, last: string)
    requires '/' !in last
    ensures ThroughLastSlash(front + "/" + last) == |front| + 1 && ThroughLastSlash(last) == 0
  {
    hide ThroughLastSlash;
    var s := front + "/" + last;
    forall i | |front| < i < |s|
      ensures s[i] != '/'
    {
      assert s[i] == last[i - |front| - 1];
    }
    LastSlashIs(s, |front| + 1);
    LastSlashIs(last, 0);
  }

  /** Where the parent of a path in normal form ends. */
  lemma ParentIsPrefix(s: string)
    requires Normal(s) && s != "/"
    ensures 0 < ThroughLastSlash(s) < |s| && Normal(Parent(s))
    ensures Parent(s) == if ThroughLastSlash(s) == 1 then "/" else s[..ThroughLastSlash(s) - 1]
  {
    hide Normalized, NoDoubleSlash;
    PrefixNormal(s, ThroughLastSlash(s));
    assert Trimmed(s, '/') == s;
  }

  /** The parent of a path in normal form is that path without its final piece. */
  lemma ParentDropsLast(s: string)
    requires Normal(s) && s != "/"
    ensures Normal(Parent(s)) && |Parent(s)| < |s|
    ensures Segments(s) != [] && Segments(Parent(s)) == Segments(s)[..|Segments(s)| - 1]
  {
    hide Normal, Parent;
    ParentIsPrefix(s);
    var n := ThroughLastSlash(s);
    var front, last := s[..n - 1], s[n..];
    assert s == front + "/" + last;
    SegmentAtEnd("", front, last);
    SlashInFront("");
    assert "/" + "" == "/";
  }

  lemma PrefixNormal(s: string, n: nat)
    requires Normal(s) && s != "/" && n == ThroughLastSlash(s)
    ensures 0 < n < |s| && Normalized(s[..n]) == if n == 1 then "/" else s[..n - 1]
    ensures Normal(if n == 1 then "/" else s[..n - 1])
  {
    hide Normalized;
    if n > 1 {
      assert s[n - 2] != '/';
      assert s[..n] == s[..n - 1] + "/";
      TrailingSlashGoes(s[..n - 1]);
    } else {
      assert s[..n] == "/";
      TrailingSlashGoes("/");
    }
  }

  lemma AppendSlash(s: string)
    requires Normal(s) && s != "/"
    ensures '\\' !in s + "/" && NoDoubleSlash(s + "/") && (s + "/")[0] == '/'
  {
  }

  lemma TrailingSlashGoes(s: string)
    requires Normal(s)
    ensures s != "/" ==> Normalized(s + "/") == s
    ensures Normalized("/") == "/"
  {
    hide Normal, NoDoubleSlash, Slashed, Collapsed, Trimmed;
    if s != "/" {
      var p := s + "/";
      AppendSlash(s);
      NoBackslashStays(p);
      NoDoubleStays(p);
      NormalEnds(s);
      TrimOne(s);
    }
  }

  lemma NormalEnds(s: string)
    requires Normal(s)
    ensures s != "" && s[0] == '/' && (s != "/" ==> s[|s| - 1] != '/')
  {
  }

  lemma TrimOne(s: string)
    requires s != "" && s[|s| - 1] != '/'
    ensures Trimmed(s + "/", '/') == s
  {
    assert (s + "/")[..|s|] == s;
  }

  lemma {:induction false} SegmentAtEnd(current: string, s: string, last: string)
    requires last != "" && '/' !in last
    ensures SegmentsFrom(current, s + "/" + last) == SegmentsFrom(current, s) + [last]
    decreases |s|
  {
    if s == "" {
      assert s + "/" + last == "/" + last && ("/" + last)[1..] == last;
      OnePiece("", last);
      assert "" + last == last;
    } else {
      assert (s + "/" + last)[1..] == s[1..] + "/" + last;
      SegmentAtEnd(if s[0] == '/' then "" else current + [s[0]], s[1..], last);
    }
  }

  lemma {:induction false} OnePiece(current: string, s: string)
    requires '/' !in s
    ensures SegmentsFrom(current, s) == if current + s == "" then [] else [current + s]
    decreases |s|
  {
    if s == "" {
      assert current + s == current;
    } else {
      OnePiece(current + [s[0]], s[1..]);
      assert current + [s[0]] + s[1..] == current + s;
    }
  }

  function Ancestor(s: string, n: nat): string
    decreases n
  {
    if n == 0 then s else Ancestor(Parent(s), n - 1)
  }

  /** Going up one parent at a time reaches the root after as many steps as there are pieces, not before. */
  lemma {:induction false} ReachesRoot(s: string, n: nat)
    requires Normal(s)
    ensures Ancestor(s, n) == "/" <==> n >= |Segments(s)|
    decreases n
  {
    hide Parent, Normal, Segments;
    if s == "/" {
      RootStays(n);
    } else {
      ParentDropsLast(s);
      if n > 0 {
        ReachesRoot(Parent(s), n - 1);
      }
    }
  }

  lemma {:induction false} RootStays(n: nat)
    ensures Ancestor("/", n) == "/" && Segments("/") == []
  {
    assert Parent("/") == "/";
    if n > 0 {
      RootStays(n - 1);
    }
  }
}

/** Box-relative paths: the editor's check and the worker's confinement. */
module Paths {
  import opened Wrappers

  // ---------- "a/b/c" and its segments ----------

  /** JavaScript's and Rust's split('/'): at least one segment, possibly empty ones. */
  function Split(s: string): (segs: seq<string>)
    ensures |segs| >= 1 && forall i :: 0 <= i < |segs| ==> '/' !in segs[i]
  {
    if s == "" then [""]
    else if s[0] == '/' then [""] + Split(s[1..])
    else
      var rest := Split(s[1..]);
      [[s[0]] + rest[0]] + rest[1..]
  }

  function Join(segs: seq<string>): string
    requires |segs| >= 1
  {
    if |segs| == 1 then segs[0] else segs[0] + "/" + Join(segs[1..])
  }

  lemma {:induction false} JoinSplit(s: string)
    ensures Join(Split(s)) == s
  {
    if s != "" {
      JoinSplit(s[1..]);
      var rest := Split(s[1..]);
      if s[0] == '/' {
        assert ([""] + rest)[1..] == rest;
      } else {
        var segs := Split(s);
        assert segs[0] == [s[0]] + rest[0] && segs[1..] == rest[1..];
        assert s == [s[0]] + s[1..];
      }
    }
  }

  lemma {:induction false} SplitPrefixed(seg: string, s: string)
    requires '/' !in seg
    ensures Split(seg) == [seg]
    ensures Split(seg + "/" + s) == [seg] + Split(s)
  {
    if seg == "" {
      assert ("/" + s)[1..] == s;
      assert seg + "/" + s == "/" + s;
    } else {
      SplitPrefixed(seg[1..], s);
      assert (seg + "/" + s)[1..] == seg[1..] + "/" + s;
      assert seg == [seg[0]] + seg[1..];
    }
  }

  lemma {:induction false} SplitJoin(segs: seq<string>)
    requires |segs| >= 1 && forall i :: 0 <= i < |segs| ==> '/' !in segs[i]
    ensures Split(Join(segs)) == segs
  {
    if |segs| == 1 {
      SplitPrefixed(segs[0], "");
    } else {
      SplitJoin(segs[1..]);
      SplitPrefixed(segs[0], Join(segs[1..]));
    }
  }

  lemma {:induction false} JoinConcat(a: seq<string>, b: seq<string>)
    requires |a| >= 1 && |b| >= 1
    ensures Join(a + b) == Join(a) + "/" + Join(b)
  {
    assert (a + b)[0] == a[0] && (a + b)[1..] == a[1..] + b;
    if |a| > 1 {
      JoinConcat(a[1..], b);
      assert a[0] + "/" + (Join(a[1..]) + "/" + Join(b)) == a[0] + "/" + Join(a[1..]) + "/" + Join(b);
    } else {
      assert a[1..] + b == b;
    }
  }

  lemma SplitConcat(a: string, b: string)
    ensures Split(a + "/" + b) == Split(a) + Split(b)
  {
    JoinSplit(a);
    JoinSplit(b);
    JoinConcat(Split(a), Split(b));
    SplitJoin(Split(a) + Split(b));
  }

  // ---------- trim ----------

  predicate IsSpace(c: char) {
    c == ' ' || c == '\t' || c == '\n' || c == '\r'
  }

  function TrimStart(s: string): string {
    if s != "" && IsSpace(s[0]) then TrimStart(s[1..]) else s
  }

  function TrimEnd(s: string): string {
    if s != "" && IsSpace(s[|s| - 1]) then TrimEnd(s[..|s| - 1]) else s
  }

  function Trim(s: string): string { TrimEnd(TrimStart(s)) }

  lemma {:induction false} TrimStartShape(s: string)
    ensures var k := |s| - |TrimStart(s)|;
      && 0 <= k <= |s| && s[k..] == TrimStart(s)
      && (forall i :: 0 <= i < k ==> s[i] == ' ' || s[i] == '\t' || s[i] == '\n' || s[i] == '\r')
      && (k < |s| ==> s[k] != ' ' && s[k] != '\t' && s[k] != '\n' && s[k] != '\r')
  {
    if s != "" && IsSpace(s[0]) {
      TrimStartShape(s[1..]);
      var k := |s| - |TrimStart(s)|;
      assert s[1..][k - 1..] == s[k..];
      forall i | 0 <= i < k ensures s[i] == ' ' || s[i] == '\t' || s[i] == '\n' || s[i] == '\r' {
        assert i > 0 ==> s[i] == s[1..][i - 1];
      }
    }
  }

  lemma {:induction false} TrimEndShape(s: string)
    ensures TrimEnd(s) <= s
    ensures forall i :: |TrimEnd(s)| <= i < |s| ==> s[i] == ' ' || s[i] == '\t' || s[i] == '\n' || s[i] == '\r'
    ensures TrimEnd(s) != "" ==> var c := s[|TrimEnd(s)| - 1]; c != ' ' && c != '\t' && c != '\n' && c != '\r'
  {
    if s != "" && IsSpace(s[|s| - 1]) {
      TrimEndShape(s[..|s| - 1]);
    }
  }

  /** What `trim` drops at both ends is exactly the spaces, tabs and line breaks there. */
  lemma TrimDrops(s: string) returns (i: nat, j: nat)
    ensures i <= j <= |s| && Trim(s) == s[i..j]
    ensures forall k :: 0 <= k < i || j <= k < |s| ==> s[k] == ' ' || s[k] == '\t' || s[k] == '\n' || s[k] == '\r'
    ensures i < j ==> s[i] != ' ' && s[i] != '\t' && s[i] != '\n' && s[i] != '\r'
    ensures i < j ==> var c := s[j - 1]; c != ' ' && c != '\t' && c != '\n' && c != '\r'
  {
    TrimStartShape(s);
    TrimEndShape(TrimStart(s));
    i := |s| - |TrimStart(s)|;
    j := i + |Trim(s)|;
    assert Trim(s) == TrimStart(s)[..|Trim(s)|];
    forall k | j <= k < |s| ensures s[k] == ' ' || s[k] == '\t' || s[k] == '\n' || s[k] == '\r' {
      assert s[k] == TrimStart(s)[k - i];
    }
    if i < j {
      assert s[i] == TrimStart(s)[0] && s[j - 1] == TrimStart(s)[|Trim(s)| - 1];
    }
  }

  lemma {:induction false} TrimEndKeepsFront(a: string, s: string)
    requires a != "" && !IsSpace(a[|a| - 1])
    ensures TrimEnd(a + s) == a + TrimEnd(s)
    decreases |s|
  {
    if s == "" {
      assert a + s == a;
    } else if IsSpace(s[|s| - 1]) {
      TrimEndKeepsFront(a, s[..|s| - 1]);
      assert (a + s)[..|a + s| - 1] == a + s[..|s| - 1];
    }
  }

  // ---------- the two checks ----------

  predicate LegalSegment(seg: string) {
    seg != "" && seg != "." && seg != ".." && '\\' !in seg && ':' !in seg && '\0' !in seg
  }

  predicate AllLegal(segs: seq<string>) {
    forall i :: 0 <= i < |segs| ==> LegalSegment(segs[i])
  }

  /** The editor's check of one entry. */
  predicate IsValidPath(path: string) {
    path != "" && path[0] != '/' && AllLegal(Split(path))
  }

  predicate IsIdChar(c: char) {
    'a' <= c <= 'z' || 'A' <= c <= 'Z' || '0' <= c <= '9' || c == '_' || c == '-'
  }

  predicate ValidUserId(userId: string) {
    userId != "" && forall i :: 0 <= i < |userId| ==> IsIdChar(userId[i])
  }

  datatype ResolveError = BadUser | BadPath | Io

  /** A path below the base directory, as its components. */
  type Path = seq<string>

  function Confined(userId: string, subpath: string): Result<Path, ResolveError> {
    var raw := Trim(subpath);
    if !ValidUserId(userId) then Err(BadUser)
    else if raw == "" then Ok([userId])
    else if raw[0] == '/' || !AllLegal(Split(raw)) then Err(BadPath)
    else Ok([userId] + Split(raw))
  }

  lemma UserIdChars(userId: string)
    ensures ValidUserId(userId) <==>
      && userId != ""
      && forall c <- userId :: 'a' <= c <= 'z' || 'A' <= c <= 'Z' || '0' <= c <= '9' || c == '_' || c == '-'
    ensures ValidUserId(userId) ==>
      userId != "." && userId != ".." && forall c <- "/\\:\0" :: c !in userId
  {
    assert forall c <- userId :: IsIdChar(c) <==>
      'a' <= c <= 'z' || 'A' <= c <= 'Z' || '0' <= c <= '9' || c == '_' || c == '-';
    if ValidUserId(userId) {
      assert forall c <- userId :: IsIdChar(c);
      assert IsIdChar(userId[0]);
    } else if userId != "" {
      var i :| 0 <= i < |userId| && !IsIdChar(userId[i]);
      assert userId[i] in userId;
    }
  }

  lemma SegmentChars(segs: seq<string>)
    ensures AllLegal(segs) <==> forall comp <- segs ::
      comp != "" && comp != "." && comp != ".." && '\\' !in comp && ':' !in comp && '\0' !in comp
  {
    if AllLegal(segs) {
      forall comp | comp in segs ensures LegalSegment(comp) { }
    } else {
      var i :| 0 <= i < |segs| && !LegalSegment(segs[i]);
      assert segs[i] in segs;
    }
  }

  /** Which subpaths are accepted, character by character. */
  lemma ConfinedIff(userId: string, subpath: string)
    ensures var raw := Trim(subpath);
      Confined(userId, subpath).Ok? <==>
        && userId != ""
        && (forall c <- userId :: 'a' <= c <= 'z' || 'A' <= c <= 'Z' || '0' <= c <= '9' || c == '_' || c == '-')
        && (raw == "" || (raw[0] != '/' && forall comp <- Split(raw) ::
              comp != "" && comp != "." && comp != ".." && '\\' !in comp && ':' !in comp && '\0' !in comp))
    ensures Confined(userId, subpath).Err? ==>
      (Confined(userId, subpath).error == BadUser <==>
         !(userId != "" &&
           forall c <- userId :: 'a' <= c <= 'z' || 'A' <= c <= 'Z' || '0' <= c <= '9' || c == '_' || c == '-'))
  {
    var raw := Trim(subpath);
    UserIdChars(userId);
    SegmentChars(Split(raw));
    assert Confined(userId, subpath).Ok? <==>
      ValidUserId(userId) && (raw == "" || (raw[0] != '/' && AllLegal(Split(raw))));
  }

  /** An accepted path starts with the user's folder and never leaves it, whether '/' or '\\'
      separates folders: below it come the trimmed subpath's segments, and none of them climbs. */
  lemma ConfinedBelowUser(userId: string, subpath: string)
    requires Confined(userId, subpath).Ok?
    ensures var path := Confined(userId, subpath).value;
      && path != [] && path[0] == userId
      && (Trim(subpath) == "" ==> path == [userId])
      && (Trim(subpath) != "" ==> |path| > 1 && Join(path[1..]) == Trim(subpath))
    ensures forall comp <- Confined(userId, subpath).value ::
      && comp != "" && comp != "." && comp != ".."
      && '/' !in comp && '\\' !in comp && ':' !in comp && '\0' !in comp
  {
    var raw, path := Trim(subpath), Confined(userId, subpath).value;
    UserIdChars(userId);
    SegmentChars(Split(raw));
    assert '/' in "/\\:\0" && '\\' in "/\\:\0" && ':' in "/\\:\0" && '\0' in "/\\:\0";
    if raw != "" {
      JoinSplit(raw);
      assert path[1..] == Split(raw);
    }
    forall comp | comp in path
      ensures comp != "" && comp != "." && comp != ".." && '/' !in comp
      ensures '\\' !in comp && ':' !in comp && '\0' !in comp
    {
      assert comp == userId || comp in Split(raw);
    }
  }

  /** The worker's confinement: components are pushed one by one, the first illegal one rejects. */
  method ConfinePath(userId: string, subpath: string) returns (r: Result<Path, ResolveError>)
    ensures r == Confined(userId, subpath)
    ensures r.Ok? ==> r.value != [] && r.value[0] == userId && forall comp <- r.value ::
      comp != "" && comp != "." && comp != ".." && '/' !in comp && '\\' !in comp && ':' !in comp && '\0' !in comp
  {
    if Confined(userId, subpath).Ok? { ConfinedBelowUser(userId, subpath); }
    if !ValidUserId(userId) { return Err(BadUser); }
    var out := [userId];
    var raw := Trim(subpath);
    if raw == "" { return Ok(out); }
    if raw[0] == '/' { return Err(BadPath); }
    var comps := Split(raw);
    for i := 0 to |comps|
      invariant out == [userId] + comps[..i] && AllLegal(comps[..i])
    {
      if comps[i] == "" || comps[i] == "." || comps[i] == ".." {
        assert !LegalSegment(comps[i]);
        return Err(BadPath);
      }
      if '\\' in comps[i] || ':' in comps[i] || '\0' in comps[i] {
        assert !LegalSegment(comps[i]);
        return Err(BadPath);
      }
      out := out + [comps[i]];
      assert comps[..i + 1] == comps[..i] + [comps[i]];
    }
    assert comps[..|comps|] == comps;
    return Ok(out);
  }

  lemma ValidIsAllLegal(path: string)
    ensures IsValidPath(path) <==> AllLegal(Split(path))
  {
    if AllLegal(Split(path)) {
      assert LegalSegment(Split(path)[0]);
    }
  }

  lemma EditorChars(path: string)
    ensures IsValidPath(path) <==> path != "" && path[0] != '/' && forall seg <- Split(path) ::
      seg != "" && seg != "." && seg != ".." && '\\' !in seg && ':' !in seg && '\0' !in seg
  {
    SegmentChars(Split(path));
    if IsValidPath(path) {
      forall seg | seg in Split(path) ensures LegalSegment(seg) { }
    } else if path != "" && path[0] != '/' {
      var i :| 0 <= i < |Split(path)| && !LegalSegment(Split(path)[i]);
      assert Split(path)[i] in Split(path);
    }
  }

  lemma IllegalAt(path: string, i: nat)
    requires i < |Split(path)| && !LegalSegment(Split(path)[i])
    ensures !IsValidPath(path)
  {
  }

  /** The editor's loop over the segments, and what it accepts in characters. */
  method CheckPath(path: string) returns (ok: bool)
    ensures ok == IsValidPath(path)
    ensures ok <==> path != "" && path[0] != '/' && forall seg <- Split(path) ::
      seg != "" && seg != "." && seg != ".." && '\\' !in seg && ':' !in seg && '\0' !in seg
  {
    var segs := Split(path);
    EditorChars(path);
    if path == "" || path[0] == '/' { return false; }
    for i := 0 to |segs|
      invariant AllLegal(segs[..i])
    {
      if segs[i] == "" || segs[i] == "." || segs[i] == ".." || '\\' in segs[i] || ':' in segs[i] || '\0' in segs[i] {
        IllegalAt(path, i);
        return false;
      }
      assert segs[..i + 1] == segs[..i] + [segs[i]];
    }
    assert segs[..|segs|] == segs;
    return true;
  }

  lemma TrimJoined(app: string, path: string)
    requires app != "" && !IsSpace(app[0])
    ensures Trim(app + "/" + path) == app + "/" + TrimEnd(path)
  {
    var front := app + "/";
    assert app + "/" + path == front + path && app + "/" + TrimEnd(path) == front + TrimEnd(path);
    assert TrimStart(front + path) == front + path;
    TrimEndKeepsFront(front, path);
  }

  lemma AllLegalConcat(a: seq<string>, b: seq<string>)
    ensures AllLegal(a + b) <==> AllLegal(a) && AllLegal(b)
  {
    if AllLegal(a + b) {
      assert forall i :: 0 <= i < |a| ==> a[i] == (a + b)[i];
      assert forall i :: 0 <= i < |b| ==> b[i] == (a + b)[|a| + i];
    }
  }

  /** The editor accepts exactly what the worker accepts, except that the worker first drops
      trailing white space: an entry is materialised iff its trimmed path is valid, and then at
      the trimmed path. */
  lemma WorkerTrimsWhatEditorChecks(userId: string, app: string, path: string)
    requires ValidUserId(userId) && IsValidPath(app) && !IsSpace(app[0])
    ensures Confined(userId, app + "/" + path).Ok? <==> IsValidPath(TrimEnd(path))
    ensures IsValidPath(TrimEnd(path)) ==>
              Confined(userId, app + "/" + path) == Ok([userId] + Split(app) + Split(TrimEnd(path)))
  {
    var tail := TrimEnd(path);
    TrimJoined(app, path);
    SplitConcat(app, tail);
    ValidIsAllLegal(tail);
    AllLegalConcat(Split(app), Split(tail));
    assert [userId] + (Split(app) + Split(tail)) == [userId] + Split(app) + Split(tail);
  }

  /** The last of the segments. */
  function LastSegment(path: string): string { Split(path)[|Split(path)| - 1] }

  lemma LastIn(segs: seq<string>)
    requires |segs| >= 1
    ensures AllLegal(segs) <==> AllLegal(segs[..|segs| - 1]) && LegalSegment(segs[|segs| - 1])
  {
    AllLegalConcat(segs[..|segs| - 1], [segs[|segs| - 1]]);
    assert segs == segs[..|segs| - 1] + [segs[|segs| - 1]];
    assert AllLegal([segs[|segs| - 1]]) <==> LegalSegment(segs[|segs| - 1]) by {
      assert [segs[|segs| - 1]][0] == segs[|segs| - 1];
    }
  }

  lemma TrimJoinedSegments(front: seq<string>, last: string)
    requires front != [] && '/' !in last && forall i :: 0 <= i < |front| ==> '/' !in front[i]
    ensures Split(TrimEnd(Join(front + [last]))) == front + [TrimEnd(last)]
  {
    JoinConcat(front, [last]);
    TrimEndKeepsFront(Join(front) + "/", last);
    TrimEndShape(last);
    SplitConcat(Join(front), TrimEnd(last));
    SplitJoin(front);
    SplitPrefixed(TrimEnd(last), "");
  }

  lemma TrimOneSegment(seg: string)
    requires '/' !in seg
    ensures Split(TrimEnd(seg)) == [] + [TrimEnd(seg)]
  {
    TrimEndShape(seg);
    SplitPrefixed(TrimEnd(seg), "");
  }

  // Trimming a path trims its last segment.
  lemma TrimLastSegment(path: string)
    ensures var segs := Split(path);
            Split(TrimEnd(path)) == segs[..|segs| - 1] + [TrimEnd(segs[|segs| - 1])]
  {
    var segs := Split(path);
    var front, last := segs[..|segs| - 1], segs[|segs| - 1];
    JoinSplit(path);
    if front == [] {
      TrimOneSegment(last);
    } else {
      assert segs == front + [last];
      TrimJoinedSegments(front, last);
    }
  }

  lemma SpaceBehind(s: string, seg: string)
    requires s <= seg && forall i :: |s| <= i < |seg| ==> IsSpace(seg[i])
    ensures forall c :: !IsSpace(c) ==> (c in seg <==> c in s)
  {
    assert seg == s + seg[|s|..];
    assert forall c :: c in seg[|s|..] ==> IsSpace(c);
  }

  // White space at the end never makes a segment illegal, and taking it off only for want of a name.
  lemma TrimmedLegal(seg: string)
    ensures LegalSegment(TrimEnd(seg)) <==> LegalSegment(seg) && TrimEnd(seg) !in ["", ".", ".."]
  {
    var s := TrimEnd(seg);
    TrimEndShape(seg);
    SpaceBehind(s, seg);
    if seg == "." || seg == ".." {
      assert !IsSpace(seg[|seg| - 1]);
    }
  }

  /** The two checks differ exactly on paths that the editor accepts and whose last segment, without
      the white space at its end, is empty, "." or "..": those the worker rejects. */
  lemma ChecksDifferIff(userId: string, app: string, path: string)
    requires ValidUserId(userId) && IsValidPath(app) && !IsSpace(app[0])
    ensures Confined(userId, app + "/" + path).Ok? <==>
            IsValidPath(path) && TrimEnd(LastSegment(path)) !in ["", ".", ".."]
  {
    var segs := Split(path);
    var front, last := segs[..|segs| - 1], segs[|segs| - 1];
    WorkerTrimsWhatEditorChecks(userId, app, path);
    ValidIsAllLegal(path);
    ValidIsAllLegal(TrimEnd(path));
    TrimLastSegment(path);
    LastIn(segs);
    LastIn(front + [TrimEnd(last)]);
    assert (front + [TrimEnd(last)])[..|segs| - 1] == front;
    TrimmedLegal(last);
  }

  /** So the two checks disagree on a path made of spaces, which the editor lets through. */
  lemma BlankNamePassesEditorOnly(userId: string, app: string)
    requires ValidUserId(userId) && IsValidPath(app) && !IsSpace(app[0])
    ensures IsValidPath(" ") && Confined(userId, app + "/" + " ").Err?
  {
    SplitPrefixed(" ", "");
    assert TrimEnd(" ") == "" by { assert " "[..0] == ""; }
    ChecksDifferIff(userId, app, " ");
  }
}

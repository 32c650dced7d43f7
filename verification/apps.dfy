/**
 * The monitored-application list: how the settings field is parsed into
 * names (save_config), how the list is shown again (the comma join in the
 * settings field) and how a process list is matched against it,
 * case-insensitively (is_app_running).
 */
module Apps {
  import opened Wrappers

  // ---------------------------------------------------------------------
  // Characters
  // ---------------------------------------------------------------------

  /** Lower-casing of one character, as `str.lower()` does it for ASCII letters. */
  function LowerChar(c: char): char {
    if 'A' <= c <= 'Z' then (c as int + 32) as char else c
  }

  function Lower(s: string): string {
    seq(|s|, i requires 0 <= i < |s| => LowerChar(s[i]))
  }

  /** The characters `str.strip()` removes, restricted to the first 256 code points. */
  predicate IsSpace(c: char) {
    c == ' ' || c == '\t' || c == '\n' || c == '\r' || c == '\U{B}' || c == '\U{C}'
    || ('\U{1C}' <= c <= '\U{1F}') || c == '\U{85}' || c == '\U{A0}'
  }

  /** No whitespace at either end (the shape of every `str.strip()` result). */
  predicate Stripped(s: string) {
    s == [] || (!IsSpace(s[0]) && !IsSpace(s[|s| - 1]))
  }

  // ---------------------------------------------------------------------
  // str.strip()
  // ---------------------------------------------------------------------

  /** Drop leading whitespace. */
  function TrimLeft(s: string): string
    decreases |s|
  {
    if s != [] && IsSpace(s[0]) then TrimLeft(s[1..]) else s
  }

  /** Drop trailing whitespace. */
  function TrimRight(s: string): string
    decreases |s|
  {
    if s != [] && IsSpace(s[|s| - 1]) then TrimRight(s[..|s| - 1]) else s
  }

  /** TrimLeft keeps the suffix after a run of whitespace, and that suffix starts with no space. */
  lemma {:induction false} TrimLeftSuffix(s: string)
    ensures var r := TrimLeft(s);
            && |r| <= |s| && r == s[|s| - |r|..]
            && (forall i :: 0 <= i < |s| - |r| ==> IsSpace(s[i]))
            && (r == [] || !IsSpace(r[0]))
    decreases |s|
  {
    if s != [] && IsSpace(s[0]) {
      TrimLeftSuffix(s[1..]);
    }
  }

  /** TrimRight keeps the prefix before a run of whitespace, and that prefix ends with no space. */
  lemma {:induction false} TrimRightPrefix(s: string)
    ensures var r := TrimRight(s);
            && |r| <= |s| && r == s[..|r|]
            && (forall i :: |r| <= i < |s| ==> IsSpace(s[i]))
            && (r == [] || !IsSpace(r[|r| - 1]))
    decreases |s|
  {
    if s != [] && IsSpace(s[|s| - 1]) {
      TrimRightPrefix(s[..|s| - 1]);
    }
  }

  /** `r` sits at offset `k` of `s`, with only whitespace before and after it. */
  ghost predicate AmidSpace(s: string, k: int, r: string) {
    && 0 <= k <= |s| - |r| && r == s[k..k + |r|]
    && (forall i :: 0 <= i < k ==> IsSpace(s[i]))
    && (forall i :: k + |r| <= i < |s| ==> IsSpace(s[i]))
  }

  /** `s.strip()`: the longest infix of `s` with no whitespace at either end. */
  function Strip(s: string): (r: string)
    ensures Stripped(r)
    ensures Stripped(s) ==> r == s
    ensures exists k :: AmidSpace(s, k, r)
  {
    var l := TrimLeft(s);
    var r := TrimRight(l);
    StripStep(s, l, r);
    r
  }

  /** Trimming the left and then the right end leaves a stripped infix amid whitespace. */
  lemma StripStep(s: string, l: string, r: string)
    requires l == TrimLeft(s) && r == TrimRight(l)
    ensures Stripped(r)
    ensures Stripped(s) ==> r == s
    ensures AmidSpace(s, |s| - |l|, r)
  {
    TrimLeftSuffix(s);
    TrimRightPrefix(l);
    assert Stripped(r) by {
      assert r == [] || r[0] == l[0];
    }
    if Stripped(s) {
      assert l == s;
      assert r == s;
    }
    AmidTrimmed(s, l, r);
  }

  /** The pieces the two trims cut off are whitespace, so what is left sits amid whitespace. */
  lemma AmidTrimmed(s: string, l: string, r: string)
    requires |l| <= |s| && l == s[|s| - |l|..] && (forall i :: 0 <= i < |s| - |l| ==> IsSpace(s[i]))
    requires |r| <= |l| && r == l[..|r|] && (forall i :: |r| <= i < |l| ==> IsSpace(l[i]))
    ensures AmidSpace(s, |s| - |l|, r)
  {
    var k := |s| - |l|;
    assert r == s[k..k + |r|];
    assert forall i :: k + |r| <= i < |s| ==> s[i] == l[i - k];
  }

  /** What strip() keeps is an infix of its input, so it brings in no new character. */
  lemma StripInfix(s: string)
    ensures forall i :: 0 <= i < |Strip(s)| ==> Strip(s)[i] in s
  {
    var l := TrimLeft(s);
    var k := |s| - |l|;
    TrimLeftSuffix(s);
    TrimRightPrefix(l);
    forall i | 0 <= i < |Strip(s)| ensures Strip(s)[i] in s {
      assert Strip(s)[i] == l[i] == s[k + i];
    }
  }

  // ---------------------------------------------------------------------
  // str.split(",") and ",".join(...)
  // ---------------------------------------------------------------------

  /** `",".join(parts)`: how the settings field shows the list. */
  function Join(parts: seq<string>): (text: string)
    ensures parts == [] ==> text == ""
    ensures parts != [] ==> parts[0] <= text
    decreases |parts|
  {
    if parts == [] then ""
    else if |parts| == 1 then parts[0]
    else parts[0] + "," + Join(parts[1..])
  }

  /** Joining a first name and the rest. */
  lemma JoinCons(x: string, ys: seq<string>)
    ensures Join([x] + ys) == if ys == [] then x else x + "," + Join(ys)
  {
    assert ([x] + ys)[1..] == ys;
  }

  /** `s.split(",")`: never empty, no piece holds a comma, and joining gives `s` back. */
  function Split(s: string): (parts: seq<string>)
    ensures |parts| >= 1
    ensures forall i :: 0 <= i < |parts| ==> ',' !in parts[i]
    ensures Join(parts) == s
    decreases |s|
  {
    if s == [] then [""]
    else
      var rest := Split(s[1..]);
      var parts := if s[0] == ',' then [""] + rest else [[s[0]] + rest[0]] + rest[1..];
      SplitStep(s, rest, parts);
      parts
  }

  /** One step of Split: a comma starts a new piece, any other character extends the first. */
  lemma SplitStep(s: string, rest: seq<string>, parts: seq<string>)
    requires s != [] && |rest| >= 1
    requires forall i :: 0 <= i < |rest| ==> ',' !in rest[i]
    requires Join(rest) == s[1..]
    requires parts == if s[0] == ',' then [""] + rest else [[s[0]] + rest[0]] + rest[1..]
    ensures forall i :: 0 <= i < |parts| ==> ',' !in parts[i]
    ensures Join(parts) == s
  {
    if s[0] == ',' {
      JoinAfterComma(s, rest);
      CommaFreeAppend([""], rest);
    } else {
      JoinExtendFirst(s, rest);
      var first := [s[0]] + rest[0];
      assert ',' !in first by {
        assert forall k :: 0 < k < |first| ==> first[k] == rest[0][k - 1];
      }
      assert forall i :: 0 <= i < |rest[1..]| ==> ',' !in rest[1..][i] by {
        forall i | 0 <= i < |rest[1..]| ensures ',' !in rest[1..][i] {
          assert rest[1..][i] == rest[i + 1];
        }
      }
      CommaFreeAppend([first], rest[1..]);
    }
  }

  lemma JoinAfterComma(s: string, rest: seq<string>)
    requires s != [] && s[0] == ',' && |rest| >= 1
    requires Join(rest) == s[1..]
    ensures Join([""] + rest) == s
  {
    JoinCons("", rest);
    assert "" + "," + s[1..] == s;
  }

  lemma JoinExtendFirst(s: string, rest: seq<string>)
    requires s != [] && |rest| >= 1
    requires Join(rest) == s[1..]
    ensures Join([[s[0]] + rest[0]] + rest[1..]) == s
  {
    if |rest| == 1 {
      JoinExtendOnly(s, rest[0]);
      assert rest == [rest[0]];
    } else {
      JoinExtendMany(s, rest[0], rest[1..]);
      assert rest == [rest[0]] + rest[1..];
    }
  }

  lemma JoinExtendOnly(s: string, piece: string)
    requires s != [] && s[1..] == piece
    ensures Join([[s[0]] + piece]) == s
  {
    assert s == [s[0]] + s[1..];
  }

  lemma JoinExtendMany(s: string, piece: string, more: seq<string>)
    requires s != [] && more != [] && s[1..] == piece + "," + Join(more)
    ensures Join([[s[0]] + piece] + more) == s
  {
    JoinCons([s[0]] + piece, more);
    assert s == [s[0]] + s[1..];
  }

  /** A list entry as parsing produces it: non-empty, stripped, comma-free. */
  predicate WellFormedApp(a: string) {
    a != "" && Stripped(a) && ',' !in a
  }

  /** `a` is one of `parts`, stripped. */
  ghost predicate FromPiece(parts: seq<string>, a: string) {
    exists i :: 0 <= i < |parts| && a == Strip(parts[i])
  }

  /** `[p.strip() for p in parts if p.strip()]` */
  function Clean(parts: seq<string>): (apps: seq<string>)
    ensures |apps| <= |parts|
    ensures forall i :: 0 <= i < |parts| && Strip(parts[i]) != "" ==>
              exists j :: 0 <= j < |apps| && apps[j] == Strip(parts[i])
    ensures forall a :: a in apps ==> a != "" && FromPiece(parts, a)
    decreases |parts|
  {
    if parts == [] then []
    else
      var p := Strip(parts[0]);
      var rest := Clean(parts[1..]);
      var apps := (if p != "" then [p] else []) + rest;
      CleanStep(parts, rest, apps);
      apps
  }

  /** One step of Clean: what the rest keeps and draws on carries over to the whole. */
  lemma CleanStep(parts: seq<string>, rest: seq<string>, apps: seq<string>)
    requires parts != []
    requires apps == (if Strip(parts[0]) != "" then [Strip(parts[0])] else []) + rest
    requires forall i :: 0 <= i < |parts[1..]| && Strip(parts[1..][i]) != "" ==>
               exists j :: 0 <= j < |rest| && rest[j] == Strip(parts[1..][i])
    requires forall a :: a in rest ==> a != "" && FromPiece(parts[1..], a)
    ensures forall i :: 0 <= i < |parts| && Strip(parts[i]) != "" ==>
              exists j :: 0 <= j < |apps| && apps[j] == Strip(parts[i])
    ensures forall a :: a in apps ==> a != "" && FromPiece(parts, a)
  {
    var p := Strip(parts[0]);
    var head := if p != "" then [p] else [];
    forall i | 0 <= i < |parts| && Strip(parts[i]) != ""
      ensures exists j :: 0 <= j < |apps| && apps[j] == Strip(parts[i])
    {
      if i == 0 {
        assert apps[0] == p;
      } else {
        assert parts[i] == parts[1..][i - 1];
        var j :| 0 <= j < |rest| && rest[j] == Strip(parts[1..][i - 1]);
        assert apps[|head| + j] == rest[j];
      }
    }
    forall a | a in apps ensures a != "" && FromPiece(parts, a) {
      if a in rest {
        var i :| 0 <= i < |parts[1..]| && a == Strip(parts[1..][i]);
        assert a == Strip(parts[i + 1]);
      } else {
        assert a == p == Strip(parts[0]);
      }
    }
  }

  /**
   * The app list typed into the settings field, as save_config parses it: the
   * comma-separated pieces, stripped, with the blank ones dropped.
   */
  function ParseApps(text: string): (apps: seq<string>)
    ensures forall i :: 0 <= i < |apps| ==> WellFormedApp(apps[i])
    ensures forall i :: 0 <= i < |Split(text)| && Strip(Split(text)[i]) != "" ==>
              exists j :: 0 <= j < |apps| && apps[j] == Strip(Split(text)[i])
    ensures forall a :: a in apps ==> FromPiece(Split(text), a)
  {
    var parts := Split(text);
    CleanWellFormed(parts);
    Clean(parts)
  }

  lemma {:induction false} CleanWellFormed(parts: seq<string>)
    requires forall i :: 0 <= i < |parts| ==> ',' !in parts[i]
    ensures forall i :: 0 <= i < |Clean(parts)| ==> WellFormedApp(Clean(parts)[i])
    decreases |parts|
  {
    if parts != [] {
      StripInfix(parts[0]);
      CleanWellFormed(parts[1..]);
    }
  }

  // ---------------------------------------------------------------------
  // Parsing field by field: what every text parses to
  // ---------------------------------------------------------------------

  /** Joining two non-empty lists: the two joins with a comma between them. */
  lemma {:induction false} JoinAppend(x: seq<string>, y: seq<string>)
    requires x != [] && y != []
    ensures Join(x + y) == Join(x) + "," + Join(y)
    decreases |x|
  {
    assert (x + y)[0] == x[0];
    assert (x + y)[1..] == x[1..] + y;
    if |x| > 1 {
      JoinAppend(x[1..], y);
    }
  }

  /** Splitting at one comma first, then at the others, gives the same pieces. */
  lemma SplitAppend(a: string, b: string)
    ensures Split(a + "," + b) == Split(a) + Split(b)
  {
    var x, y := Split(a), Split(b);
    var pieces := x + y;
    JoinAppend(x, y);
    CommaFreeAppend(x, y);
    SplitJoin(pieces);
  }

  /** Two lists of comma-free pieces make one. */
  lemma CommaFreeAppend(x: seq<string>, y: seq<string>)
    requires forall i :: 0 <= i < |x| ==> ',' !in x[i]
    requires forall i :: 0 <= i < |y| ==> ',' !in y[i]
    ensures forall i :: 0 <= i < |x + y| ==> ',' !in (x + y)[i]
  {
    forall i | 0 <= i < |x + y| ensures ',' !in (x + y)[i] {
      if i >= |x| {
        assert (x + y)[i] == y[i - |x|];
      }
    }
  }

  /** The comprehension treats the pieces one after another, independently. */
  lemma {:induction false} CleanAppend(a: seq<string>, b: seq<string>)
    ensures Clean(a + b) == Clean(a) + Clean(b)
    decreases |a|
  {
    if a != [] {
      assert (a + b)[0] == a[0];
      assert (a + b)[1..] == a[1..] + b;
      CleanAppend(a[1..], b);
    } else {
      assert a + b == b;
    }
  }

  /** One piece gives its stripped text, or nothing when that is blank. */
  lemma CleanOne(p: string)
    ensures Clean([p]) == if Strip(p) == "" then [] else [Strip(p)]
  {
    assert [p][1..] == [];
  }

  /** A text with no comma is one field: its stripped text, or nothing when blank. */
  lemma ParseField(p: string)
    requires ',' !in p
    ensures ParseApps(p) == if Strip(p) == "" then [] else [Strip(p)]
  {
    SplitCommaFree(p);
    CleanOne(p);
  }

  /**
   * The fields on either side of a comma are parsed independently and their
   * names kept in order. With ParseField this fixes what every text parses to,
   * blank fields and trailing commas included.
   */
  lemma ParseAppend(a: string, b: string)
    ensures ParseApps(a + "," + b) == ParseApps(a) + ParseApps(b)
  {
    SplitAppend(a, b);
    CleanAppend(Split(a), Split(b));
  }

  /** An empty field between two names and a trailing comma add no name. */
  lemma BlankFieldsDropped(a: string, b: string)
    requires WellFormedApp(a) && WellFormedApp(b)
    ensures ParseApps(a + ",," + b + ",") == [a, b]
  {
    assert a + ",," + b + "," == a + "," + ("" + "," + (b + "," + ""));
    assert ParseApps(b + "," + "") == [b] by {
      ParseAppend(b, "");
      ParseField(b);
      ParseField("");
    }
    assert ParseApps("" + "," + (b + "," + "")) == [b] by {
      ParseAppend("", b + "," + "");
      ParseField("");
    }
    assert ParseApps(a + "," + ("" + "," + (b + "," + ""))) == [a] + [b] by {
      ParseAppend(a, "" + "," + (b + "," + ""));
      ParseField(a);
    }
  }

  // ---------------------------------------------------------------------
  // Round trip: parsing the joined list gives the list back
  // ---------------------------------------------------------------------

  lemma {:induction false} SplitCommaFree(a: string)
    requires ',' !in a
    ensures Split(a) == [a]
    decreases |a|
  {
    if a != [] {
      SplitCommaFree(a[1..]);
      assert [a[0]] + a[1..] == a;
    }
  }

  lemma {:induction false} SplitAfterField(a: string, b: string)
    requires ',' !in a
    ensures Split(a + "," + b) == [a] + Split(b)
    decreases |a|
  {
    var s := a + "," + b;
    if a == [] {
      assert s[1..] == b;
    } else {
      assert s[1..] == a[1..] + "," + b;
      SplitAfterField(a[1..], b);
      assert [a[0]] + a[1..] == a;
    }
  }

  lemma {:induction false} SplitJoin(apps: seq<string>)
    requires |apps| >= 1
    requires forall i :: 0 <= i < |apps| ==> ',' !in apps[i]
    ensures Split(Join(apps)) == apps
    decreases |apps|
  {
    if |apps| == 1 {
      SplitCommaFree(apps[0]);
    } else {
      SplitAfterField(apps[0], Join(apps[1..]));
      SplitJoin(apps[1..]);
    }
  }

  lemma {:induction false} CleanKeepsWellFormed(apps: seq<string>)
    requires forall i :: 0 <= i < |apps| ==> WellFormedApp(apps[i])
    ensures Clean(apps) == apps
    decreases |apps|
  {
    if apps != [] {
      var a, rest := apps[0], apps[1..];
      assert apps == [a] + rest;
      assert Clean(apps) == Clean([a]) + Clean(rest) by {
        CleanAppend([a], rest);
      }
      assert Clean([a]) == [a] by {
        assert WellFormedApp(a);
        CleanOne(a);
      }
      assert Clean(rest) == rest by {
        forall i | 0 <= i < |rest| ensures WellFormedApp(rest[i]) {
          assert rest[i] == apps[i + 1];
        }
        CleanKeepsWellFormed(rest);
      }
    }
  }

  /** The list shown in the settings field is read back unchanged on save. */
  lemma {:induction false} ParseJoinRoundTrip(apps: seq<string>)
    requires forall i :: 0 <= i < |apps| ==> WellFormedApp(apps[i])
    ensures ParseApps(Join(apps)) == apps
  {
    if apps == [] {
      assert Split("") == [""];
    } else {
      SplitJoin(apps);
      CleanKeepsWellFormed(apps);
    }
  }

  /** Clean of pieces that are all non-blank strips each one and drops none. */
  lemma {:induction false} CleanNonBlank(parts: seq<string>)
    requires forall i :: 0 <= i < |parts| ==> Strip(parts[i]) != ""
    ensures |Clean(parts)| == |parts|
    ensures forall i :: 0 <= i < |parts| ==> Clean(parts)[i] == Strip(parts[i])
    decreases |parts|
  {
    if parts != [] {
      var rest := parts[1..];
      var apps := Clean(parts);
      var tail := Clean(rest);
      assert apps == [Strip(parts[0])] + tail by {
        assert parts == [parts[0]] + rest;
        CleanAppend([parts[0]], rest);
        CleanOne(parts[0]);
      }
      assert |tail| == |rest| && forall i :: 0 <= i < |rest| ==> tail[i] == Strip(rest[i]) by {
        forall i | 0 <= i < |rest| ensures Strip(rest[i]) != "" {
          assert rest[i] == parts[i + 1];
        }
        CleanNonBlank(rest);
      }
      StrippedCons(parts, tail, apps);
    }
  }

  /** Putting the first piece, stripped, in front of the others stripped. */
  lemma StrippedCons(parts: seq<string>, tail: seq<string>, apps: seq<string>)
    requires parts != [] && |tail| == |parts| - 1
    requires forall i :: 0 <= i < |tail| ==> tail[i] == Strip(parts[1..][i])
    requires apps == [Strip(parts[0])] + tail
    ensures |apps| == |parts|
    ensures forall i :: 0 <= i < |parts| ==> apps[i] == Strip(parts[i])
  {
    forall i | 0 <= i < |parts| ensures apps[i] == Strip(parts[i]) {
      if i > 0 {
        assert apps[i] == tail[i - 1];
        assert parts[1..][i - 1] == parts[i];
      }
    }
  }

  /**
   * Names typed with whitespace around them, between the commas, are saved
   * stripped, in the order typed, and none is lost.
   */
  lemma ParsePaddedNames(pieces: seq<string>)
    requires |pieces| >= 1
    requires forall i :: 0 <= i < |pieces| ==> ',' !in pieces[i] && Strip(pieces[i]) != ""
    ensures |ParseApps(Join(pieces))| == |pieces|
    ensures forall i :: 0 <= i < |pieces| ==> ParseApps(Join(pieces))[i] == Strip(pieces[i])
  {
    SplitJoin(pieces);
    CleanNonBlank(pieces);
  }

  /** Saving the settings twice without editing them keeps the same list. */
  lemma ParseIdempotent(text: string)
    ensures ParseApps(Join(ParseApps(text))) == ParseApps(text)
  {
    ParseJoinRoundTrip(ParseApps(text));
  }

  // ---------------------------------------------------------------------
  // is_app_running
  // ---------------------------------------------------------------------

  /** Process `name` (None when psutil gave no name) is one of `apps`, ignoring case. */
  ghost predicate IsMonitored(apps: seq<string>, name: Option<string>) {
    name.Some? && name.value != ""
    && exists j :: 0 <= j < |apps| && Lower(name.value) == Lower(apps[j])
  }

  /** Some running process is one of the monitored apps. */
  ghost predicate MonitoredAppRunning(apps: seq<string>, processes: seq<Option<string>>) {
    exists i :: 0 <= i < |processes| && IsMonitored(apps, processes[i])
  }

  /** Scan the process list, stopping at the first monitored name. */
  method IsAppRunning(apps: seq<string>, processes: seq<Option<string>>) returns (running: bool)
    ensures running <==> MonitoredAppRunning(apps, processes)
  {
    var monitored := seq(|apps|, j requires 0 <= j < |apps| => Lower(apps[j]));
    for i := 0 to |processes|
      invariant forall k :: 0 <= k < i ==> !IsMonitored(apps, processes[k])
    {
      var name := processes[i];
      if name.Some? && name.value != "" && Lower(name.value) in monitored {
        assert IsMonitored(apps, processes[i]);
        return true;
      }
      assert forall j :: 0 <= j < |apps| ==> monitored[j] == Lower(apps[j]);
      assert !IsMonitored(apps, processes[i]);
    }
    return false;
  }
}

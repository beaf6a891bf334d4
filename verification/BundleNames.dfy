/**
 The names a .noomabundle may hold (internal/bundle/bundle.go, checkName and
 windowsReserved), and where such a name unpacks to.
 */
module BundleNames {
  import opened Text

  // ---- path.Clean, segment by segment ----

  /** One segment onto a cleaned path: "" and "." add nothing, ".." takes the last name back, or stays when
      there is none to take and the path has no root. */
  function Push(out: seq<string>, seg: string, rooted: bool): seq<string> {
    if seg == "" || seg == "." then out
    else if seg != ".." then out + [seg]
    else if out != [] && out[|out| - 1] != ".." then out[..|out| - 1]
    else if rooted then out
    else out + [".."]
  }

  function CleanSegments(segs: seq<string>, rooted: bool): seq<string> {
    if segs == [] then [] else Push(CleanSegments(segs[..|segs| - 1], rooted), segs[|segs| - 1], rooted)
  }

  function Clean(name: string): string {
    if "/" <= name then "/" + Join(CleanSegments(Split(name, '/'), true), '/')
    else
      var out := CleanSegments(Split(name, '/'), false);
      if out == [] then "." else Join(out, '/')
  }

  // ---- checkName ----

  const RESERVED_CHARS := "<>:\"|?*"
  const PORT_DIGITS := "0123456789\U{B9}\U{B2}\U{B3}"
  const DEVICES: seq<string> := ["CON", "PRN", "AUX", "NUL", "CONIN$", "CONOUT$"]

  function TrimSpaces(s: string): string {
    if s != "" && s[|s| - 1] == ' ' then TrimSpaces(s[..|s| - 1]) else s
  }

  function Upper(s: string, upper: char -> char): string {
    seq(|s|, i requires 0 <= i < |s| => upper(s[i]))
  }

  /** A device name, whatever follows its first dot and however many spaces come before it. */
  predicate IsDevice(seg: string, upper: char -> char) {
    var name := Upper(seg, upper);
    var stem := TrimSpaces(name[..IndexOf(name, '.')]);
    || stem in DEVICES
    || (|stem| == 4 && (stem[..3] == "COM" || stem[..3] == "LPT") && stem[3] in PORT_DIGITS)
  }

  predicate WindowsReserved(seg: string, upper: char -> char) {
    || (seg != "" && (seg[|seg| - 1] == '.' || seg[|seg| - 1] == ' '))
    || (exists c :: c in seg && (c in RESERVED_CHARS || c as int < 0x20))
    || IsDevice(seg, upper)
  }

  method CheckName(name: string, upper: char -> char) returns (ok: bool)
    ensures ok <==> Safe(name, upper)
  {
    NameIsSafeExactlyWhen(name, upper);
    if name == "" || "/" <= name || '\\' in name || Clean(name) != name || name == ".." || "../" <= name {
      return false;
    }
    var segs := Split(name, '/');
    for k := 0 to |segs|
      invariant forall j :: 0 <= j < k ==> !WindowsReserved(segs[j], upper)
    {
      if WindowsReserved(segs[k], upper) {
        return false;
      }
    }
    ok := true;
  }

  /** The test the code makes. */
  predicate PassesCheck(name: string, upper: char -> char) {
    && !(name == "" || "/" <= name || '\\' in name || Clean(name) != name || name == ".." || "../" <= name)
    && forall seg :: seg in Split(name, '/') ==> !WindowsReserved(seg, upper)
  }

  predicate PlainSegment(seg: string, upper: char -> char) {
    seg != "" && seg != "." && seg != ".." && !WindowsReserved(seg, upper)
  }

  /** What a reader relies on: no backslash, and every segment a plain name. */
  predicate Safe(name: string, upper: char -> char) {
    '\\' !in name && forall seg :: seg in Split(name, '/') ==> PlainSegment(seg, upper)
  }

  lemma {:induction false} CleanedSegments(segs: seq<string>, rooted: bool)
    ensures forall seg :: seg in CleanSegments(segs, rooted) ==> seg in segs && seg != "" && seg != "."
  {
    if segs != [] {
      CleanedSegments(segs[..|segs| - 1], rooted);
      assert segs == segs[..|segs| - 1] + [segs[|segs| - 1]];
    }
  }

  /** Segments that are plain names stay as they are, whatever they follow. */
  lemma {:induction false} PlainStay(before: seq<string>, segs: seq<string>, rooted: bool)
    requires forall seg :: seg in segs ==> seg != "" && seg != "." && seg != ".."
    ensures CleanSegments(before + segs, rooted) == CleanSegments(before, rooted) + segs
  {
    if segs == [] {
      assert before + segs == before;
    } else {
      var n := |segs| - 1;
      assert segs == segs[..n] + [segs[n]] && segs[n] in segs;
      assert forall seg :: seg in segs[..n] ==> seg in segs;
      PlainStay(before, segs[..n], rooted);
      assert (before + segs)[..|before| + n] == before + segs[..n];
    }
  }

  lemma FixedPointSegments(name: string)
    requires name != "" && !("/" <= name) && Clean(name) == name && name != "."
    ensures forall seg :: seg in Split(name, '/') ==> seg != "" && seg != "."
  {
    var out := CleanSegments(Split(name, '/'), false);
    CleanedSegments(Split(name, '/'), false);
    SplitLacks(name, '/');
    SplitOfJoin(out, '/');
  }

  lemma RootShows(name: string)
    requires "/" <= name
    ensures "" in Split(name, '/')
  {
  }

  /** The test the code makes accepts exactly the safe names: the fixed point of Clean leaves no empty segment,
      and the trailing-dot rule is what catches "." and a ".." anywhere. */
  lemma NameIsSafeExactlyWhen(name: string, upper: char -> char)
    ensures PassesCheck(name, upper) <==> Safe(name, upper)
  {
    if PassesCheck(name, upper) {
      PassedIsSafe(name, upper);
    }
    if Safe(name, upper) {
      SafePasses(name, upper);
    }
  }

  lemma PassedIsSafe(name: string, upper: char -> char)
    requires PassesCheck(name, upper)
    ensures Safe(name, upper)
  {
    assert WindowsReserved(".", upper) && WindowsReserved("..", upper);
    hide WindowsReserved;
    assert "." in Split(".", '/');
    if name != "." {
      FixedPointSegments(name);
    }
  }

  lemma SafePasses(name: string, upper: char -> char)
    requires Safe(name, upper)
    ensures PassesCheck(name, upper)
  {
    hide WindowsReserved;
    var segs := Split(name, '/');
    if "/" <= name {
      RootShows(name);
    }
    PlainStay([], segs, false);
    assert [] + segs == segs;
    JoinOfSplit(name, '/');
    assert segs[0] in segs;
    LeadingSegment(name, "..");
  }

  /** What a name starts with, up to a slash, is its first segment. */
  lemma LeadingSegment(name: string, seg: string)
    requires '/' !in seg
    ensures name == seg || seg + "/" <= name ==> Split(name, '/')[0] == seg
  {
    if seg + "/" <= name {
      assert name == seg + ['/'] + name[|seg| + 1..];
      SplitFirst(seg, '/', name[|seg| + 1..]);
    } else if name == seg {
      assert Split(name, '/') == [name];
    }
  }

  // ---- where a name unpacks to ----

  /** filepath.Join of a directory, given by its segments, and a name. */
  function Place(dir: seq<string>, name: string): seq<string> {
    CleanSegments(dir + Split(name, '/'), true)
  }

  /** A safe name unpacks strictly inside the directory, at its own segments, and no other safe name unpacks there. */
  lemma SafeNamesStayInsideAndApart(dir: seq<string>, a: string, b: string, upper: char -> char)
    requires Safe(a, upper) && Safe(b, upper)
    ensures Place(dir, a) == CleanSegments(dir, true) + Split(a, '/') && |Place(dir, a)| > |CleanSegments(dir, true)|
    ensures Place(dir, a) == Place(dir, b) ==> a == b
  {
    PlainStay(dir, Split(a, '/'), true);
    PlainStay(dir, Split(b, '/'), true);
    JoinOfSplit(a, '/');
    JoinOfSplit(b, '/');
    var target := CleanSegments(dir, true);
    assert (target + Split(a, '/'))[|target|..] == Split(a, '/');
    assert (target + Split(b, '/'))[|target|..] == Split(b, '/');
  }
}

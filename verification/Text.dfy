/** The string functions the scanners and the name rules are written with. */
module Text {

  /** The first position of c in s, or |s|. */
  function IndexOf(s: string, c: char): (i: nat)
    ensures i <= |s| && c !in s[..i]
    ensures i < |s| <==> c in s
    ensures i < |s| ==> s[i] == c
  {
    if s == [] || s[0] == c then 0
    else
      assert s == [s[0]] + s[1..];
      var i := IndexOf(s[1..], c) + 1;
      assert s[..i] == [s[0]] + s[1..][..i - 1];
      i
  }

  function Split(s: string, c: char): (parts: seq<string>)
    ensures parts != []
    decreases |s|
  {
    var i := IndexOf(s, c);
    if i == |s| then [s] else [s[..i]] + Split(s[i + 1..], c)
  }

  function Join(parts: seq<string>, c: char): string {
    if parts == [] then ""
    else if |parts| == 1 then parts[0]
    else parts[0] + [c] + Join(parts[1..], c)
  }

  lemma IndexOfAfter(a: string, c: char, b: string)
    requires c !in a
    ensures IndexOf(a + [c] + b, c) == |a|
  {
    var s := a + [c] + b;
    assert forall k :: 0 <= k < |a| ==> s[k] == a[k];
    assert forall k :: |a| < k <= |s| ==> s[..k][|a|] == c;
  }

  lemma SplitFirst(a: string, c: char, b: string)
    requires c !in a
    ensures Split(a + [c] + b, c) == [a] + Split(b, c)
  {
    var s := a + [c] + b;
    IndexOfAfter(a, c, b);
    assert s[..|a|] == a && s[|a| + 1..] == b;
  }

  lemma SplitWhole(s: string, c: char)
    ensures c !in s ==> Split(s, c) == [s]
  {
  }

  lemma {:induction false} SplitLacks(s: string, c: char)
    ensures forall part :: part in Split(s, c) ==> c !in part
    decreases |s|
  {
    if IndexOf(s, c) < |s| {
      SplitLacks(s[IndexOf(s, c) + 1..], c);
    }
  }

  lemma {:induction false} SplitParts(s: string, c: char)
    ensures forall part, x :: part in Split(s, c) && x in part ==> x in s
    decreases |s|
  {
    var i := IndexOf(s, c);
    if i < |s| {
      SplitParts(s[i + 1..], c);
    }
  }

  lemma {:induction false} JoinOfSplit(s: string, c: char)
    ensures Join(Split(s, c), c) == s
    decreases |s|
  {
    hide Split, Join, IndexOf;
    var i := IndexOf(s, c);
    SplitOnce(s, c);
    if i < |s| {
      JoinOfSplit(s[i + 1..], c);
      JoinFirst(s[..i], Split(s[i + 1..], c), c);
    }
  }

  lemma SplitOnce(s: string, c: char)
    ensures var i := IndexOf(s, c);
            if i == |s| then Split(s, c) == [s] && Join([s], c) == s
            else Split(s, c) == [s[..i]] + Split(s[i + 1..], c) && s == s[..i] + [c] + s[i + 1..]
  {
    if IndexOf(s, c) < |s| {
      CutAt(s, IndexOf(s, c));
    }
    hide IndexOf;
  }

  lemma CutAt(s: string, i: nat)
    requires i < |s|
    ensures s == s[..i] + [s[i]] + s[i + 1..]
  {
  }

  lemma JoinFirst(part: string, parts: seq<string>, c: char)
    requires parts != []
    ensures Join([part] + parts, c) == part + [c] + Join(parts, c)
  {
    assert ([part] + parts)[1..] == parts;
  }

  lemma {:induction false} SplitOfJoin(parts: seq<string>, c: char)
    requires parts != [] && forall part :: part in parts ==> c !in part
    ensures Split(Join(parts, c), c) == parts
  {
    if |parts| > 1 {
      SplitOfJoin(parts[1..], c);
      SplitFirst(parts[0], c, Join(parts[1..], c));
      assert parts == [parts[0]] + parts[1..];
    }
  }

  /** Unicode's white space. */
  predicate IsSpace(c: char) {
    var n := c as int;
    || 0x09 <= n <= 0x0D || n == 0x20 || n == 0x85 || n == 0xA0 || n == 0x1680
    || 0x2000 <= n <= 0x200A || n == 0x2028 || n == 0x2029 || n == 0x202F || n == 0x205F || n == 0x3000
  }

  function TrimLeft(s: string): (t: string)
    ensures forall x :: x in t ==> x in s
    ensures t != [] ==> !IsSpace(t[0])
  {
    if s != [] && IsSpace(s[0]) then TrimLeft(s[1..]) else s
  }

  function TrimRight(s: string): (t: string)
    ensures t <= s
    ensures t != [] ==> !IsSpace(t[|t| - 1])
  {
    if s != [] && IsSpace(s[|s| - 1]) then TrimRight(s[..|s| - 1]) else s
  }

  function TrimSpace(s: string): (t: string)
    ensures forall x :: x in t ==> x in s
  {
    TrimRight(TrimLeft(s))
  }

  /** Trimming leaves alone what neither starts nor ends with white space. */
  lemma TrimmedAlready(s: string)
    requires s != [] ==> !IsSpace(s[0]) && !IsSpace(s[|s| - 1])
    ensures TrimSpace(s) == s
  {
  }

  function DropReturn(s: string): string {
    if s != [] && s[|s| - 1] == '\r' then s[..|s| - 1] else s
  }

  /** The lines a line scanner yields: the newline and one carriage return before it stripped, no empty last line. */
  function Lines(s: string): (lines: seq<string>)
    decreases |s|
  {
    var i := IndexOf(s, '\n');
    if i == |s| then if s == "" then [] else [DropReturn(s)]
    else [DropReturn(s[..i])] + Lines(s[i + 1..])
  }

  lemma {:induction false} LinesLackNewlines(s: string)
    ensures forall line :: line in Lines(s) ==> '\n' !in line
    decreases |s|
  {
    var i := IndexOf(s, '\n');
    if i < |s| {
      LinesLackNewlines(s[i + 1..]);
    }
  }

  /** Lines written one after another, each ended by a newline, are the lines read back. */
  function Written(lines: seq<string>): string {
    if lines == [] then "" else lines[0] + ['\n'] + Written(lines[1..])
  }

  lemma {:induction false} LinesOfWritten(lines: seq<string>)
    requires forall line :: line in lines ==> '\n' !in line && DropReturn(line) == line
    ensures Lines(Written(lines)) == lines
  {
    if lines != [] {
      LinesOfWritten(lines[1..]);
      assert lines == [lines[0]] + lines[1..];
      assert Written(lines) == lines[0] + ['\n'] + Written(lines[1..]);
      hide Written, Lines;
      FirstLine(lines[0], Written(lines[1..]));
    }
  }

  lemma FirstLine(line: string, rest: string)
    requires '\n' !in line
    ensures Lines(line + ['\n'] + rest) == [DropReturn(line)] + Lines(rest)
  {
    var s := line + ['\n'] + rest;
    IndexOfAfter(line, '\n', rest);
    assert s[..|line|] == line && s[|line| + 1..] == rest;
    hide IndexOf, DropReturn;
  }
}

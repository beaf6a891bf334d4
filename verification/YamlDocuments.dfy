/**
 Whether a nooma.yml holds more than one YAML document (internal/config/decode.go,
 secondDocument and documentMarker), read off its lines in one pass.
 */
module YamlDocuments {
  import opened Text

  function TrimReturns(line: string): string {
    if line != [] && line[|line| - 1] == '\r' then TrimReturns(line[..|line| - 1]) else line
  }

  predicate MarkedBy(line: string, marker: string) {
    line == marker || marker + " " <= line || marker + "\t" <= line
  }

  /** `---` or `...` at column 0, alone or followed by white space. */
  predicate IsMarker(line: string) {
    MarkedBy(line, "---") || MarkedBy(line, "...")
  }

  predicate IsBlankOrComment(s: string) {
    var t := TrimSpace(s);
    t == "" || "#" <= t
  }

  /** The line says something: for a marker, what follows it on the line. */
  predicate HasContent(line: string) {
    if IsMarker(line) then !IsBlankOrComment(line[3..]) else !IsBlankOrComment(line)
  }

  /** The line starts the first document: a marker, or content that is not a directive. */
  predicate Starts(line: string) {
    IsMarker(line) || (HasContent(line) && !("%" <= TrimSpace(line)))
  }

  /** A marker on line e comes after a line s that started a document, and something stands on that line or a later
      one. */
  ghost predicate Witness(lines: seq<string>, s: nat, e: nat, j: nat) {
    s < e <= j < |lines| && Starts(lines[s]) && IsMarker(lines[e]) && HasContent(lines[j])
  }

  ghost predicate HoldsSecond(lines: seq<string>) {
    exists s, e, j :: Witness(lines, s, e, j)
  }

  function LinesOf(doc: string): (lines: seq<string>)
    ensures |lines| == |Split(doc, '\n')|
  {
    var raw := Split(doc, '\n');
    seq(|raw|, i requires 0 <= i < |raw| => TrimReturns(raw[i]))
  }

  method SecondDocument(doc: string) returns (second: bool)
    ensures second <==> HoldsSecond(LinesOf(doc))
  {
    hide Split, TrimReturns, IsMarker, IsBlankOrComment;
    var lines := LinesOf(doc);
    var started, ended := false, false;
    ghost var start: nat, end: nat := 0, 0;
    for i := 0 to |lines|
      invariant started ==> start < i && Starts(lines[start])
      invariant !started ==> forall k :: 0 <= k < i ==> !Starts(lines[k])
      invariant ended ==> started && start < end < i && IsMarker(lines[end])
      invariant !ended ==> forall k, e :: 0 <= k < e < i && Starts(lines[k]) ==> !IsMarker(lines[e])
      invariant forall s, e, j :: 0 <= s < e <= j < i ==> !Witness(lines, s, e, j)
    {
      var line := lines[i];
      if IsMarker(line) {
        if started && !ended {
          ended, end := true, i;
        }
        if !started {
          started, start := true, i;
        }
        if HasContent(line) && ended {
          assert Witness(lines, start, end, i);
          return true;
        }
      } else if HasContent(line) && (started || Starts(line)) {
        if ended {
          assert Witness(lines, start, end, i);
          return true;
        }
        if !started {
          started, start := true, i;
        }
      }
    }
    second := false;
  }

  // ---- what never matters ----

  /** A line that is neither a marker nor content can be put anywhere or taken out. */
  predicate Idle(line: string) {
    !IsMarker(line) && !HasContent(line)
  }

  lemma IdleLinesNeverMatter(before: seq<string>, line: string, after: seq<string>)
    requires Idle(line)
    ensures HoldsSecond(before + [line] + after) <==> HoldsSecond(before + after)
  {
    hide IsMarker, IsBlankOrComment;
    var with, without, n := before + [line] + after, before + after, |before|;
    assert forall k :: 0 <= k < |without| ==> without[k] == with[if k < n then k else k + 1];
    if s: nat, e: nat, j: nat :| Witness(without, s, e, j) {
      assert Witness(with, if s < n then s else s + 1, if e < n then e else e + 1, if j < n then j else j + 1);
    }
    if s: nat, e: nat, j: nat :| Witness(with, s, e, j) {
      assert with[n] == line;
      assert Witness(without, if s < n then s else s - 1, if e < n then e else e - 1, if j < n then j else j - 1);
    }
  }

  /** Another marker has content on it or after it. */
  ghost predicate Resumes(body: seq<string>) {
    exists e, j :: ResumesAt(body, e, j)
  }

  ghost predicate ResumesAt(body: seq<string>, e: int, j: int) {
    0 <= e <= j < |body| && IsMarker(body[e]) && HasContent(body[j])
  }

  /** A stream that opens with comments and one marker holds a second document exactly when another marker has content on
      it or after it: one framed document is one. */
  lemma AFramedStreamHoldsASecondExactlyWhen(preamble: seq<string>, marker: string, body: seq<string>)
    requires IsMarker(marker) && forall k :: 0 <= k < |preamble| ==> !Starts(preamble[k])
    ensures HoldsSecond(preamble + [marker] + body) <==> Resumes(body)
  {
    var lines, n := preamble + [marker] + body, |preamble|;
    assert lines[n] == marker && lines[n + 1..] == body;
    assert forall k :: 0 <= k < n ==> lines[k] == preamble[k];
    assert Starts(marker);
    hide IsMarker, HasContent, Starts, Witness, ResumesAt;
    if s, e, j :| Witness(lines, s, e, j) {
      ResumesAfter(lines, n, s, e, j);
    }
    if e, j :| ResumesAt(body, e, j) {
      ResumesHere(lines, n, e, j);
    }
  }

  lemma ResumesAfter(lines: seq<string>, n: nat, s: nat, e: nat, j: nat)
    requires n < |lines| && Witness(lines, s, e, j) && forall k :: 0 <= k < n ==> !Starts(lines[k])
    ensures ResumesAt(lines[n + 1..], e - n - 1, j - n - 1)
  {
    hide IsMarker, HasContent, Starts;
    assert s >= n;
  }

  lemma ResumesHere(lines: seq<string>, n: nat, e: int, j: int)
    requires n < |lines| && Starts(lines[n]) && ResumesAt(lines[n + 1..], e, j)
    ensures Witness(lines, n, n + 1 + e, n + 1 + j)
  {
    hide IsMarker, HasContent, Starts;
  }
}

/**
 A vault's `.env` (internal/config/dotenv.go): a deliberately narrow format, in
 which everything that could be read two ways is an error.
 */
module EnvFile {
  import opened Options
  import opened Text

  datatype Result<T> = Ok(value: T) | Err(error: Error)

  /** What is wrong, and on which line (from 1; 0 when the line is not known yet). */
  datatype Error =
    | NoEquals(line: nat)
    | BadName(line: nat)
    | AssignedTwice(line: nat, key: string)
    | QuoteNeverClosed(line: nat)
    | BareHash(line: nat)

  predicate ValidKey(key: string) {
    && key != ""
    && forall i :: 0 <= i < |key| ==>
         || 'a' <= key[i] <= 'z' || 'A' <= key[i] <= 'Z' || key[i] == '_'
         || (i > 0 && '0' <= key[i] <= '9')
  }

  function EnvValue(raw: string, line: nat): Result<string> {
    if |raw| >= 2 && ((raw[0] == '"' && raw[|raw| - 1] == '"') || (raw[0] == '\'' && raw[|raw| - 1] == '\'')) then
      Ok(raw[1..|raw| - 1])
    else if "\"" <= raw || "'" <= raw then Err(QuoteNeverClosed(line))
    else if '#' in raw then Err(BareHash(line))
    else Ok(raw)
  }

  /** What one line says; a value is judged only after its key is known to be new. */
  datatype Reading =
    | Nothing
    | Wrong(error: Error)
    | Assigns(key: string, value: Result<string>)

  function Read(text: string, line: nat): Reading {
    var trimmed := TrimSpace(text);
    if trimmed == "" || "#" <= trimmed then Nothing
    else
      var i := IndexOf(trimmed, '=');
      if i == |trimmed| then Wrong(NoEquals(line))
      else
        var key := TrimSpace(trimmed[..i]);
        if !ValidKey(key) then Wrong(BadName(line)) else Assigns(key, EnvValue(TrimSpace(trimmed[i + 1..]), line))
  }

  function Take(assignments: map<string, string>, reading: Reading, line: nat): Result<map<string, string>> {
    match reading
    case Nothing => Ok(assignments)
    case Wrong(e) => Err(e)
    case Assigns(key, value) =>
      if key in assignments then Err(AssignedTwice(line, key))
      else
        match value
        case Err(e) => Err(e)
        case Ok(v) => Ok(assignments[key := v])
  }

  function Readings(lines: seq<string>): (rs: seq<Reading>)
    ensures |rs| == |lines|
  {
    seq(|lines|, i requires 0 <= i < |lines| => Read(lines[i], i + 1))
  }

  function TakeAll(rs: seq<Reading>): Result<map<string, string>> {
    if rs == [] then Ok(map[])
    else
      match TakeAll(rs[..|rs| - 1])
      case Err(e) => Err(e)
      case Ok(m) => Take(m, rs[|rs| - 1], |rs|)
  }

  function Parse(text: string): Result<map<string, string>> {
    TakeAll(Readings(Lines(text)))
  }

  method ParseEnvFile(text: string) returns (r: Result<map<string, string>>)
    ensures r == Parse(text)
  {
    hide Read, Lines;
    var lines := Lines(text);
    ghost var rs := Readings(lines);
    var assignments: map<string, string> := map[];
    for i := 0 to |lines|
      invariant TakeAll(rs[..i]) == Ok(assignments)
    {
      assert rs[..i + 1][..i] == rs[..i];
      match Take(assignments, Read(lines[i], i + 1), i + 1) {
        case Err(e) =>
          FirstErrorStands(rs, i + 1);
          return Err(e);
        case Ok(m) =>
          assignments := m;
      }
    }
    assert rs[..|lines|] == rs;
    r := Ok(assignments);
  }

  lemma {:induction false} FirstErrorStands(rs: seq<Reading>, n: nat)
    requires n <= |rs| && TakeAll(rs[..n]).Err?
    ensures TakeAll(rs) == TakeAll(rs[..n])
  {
    if n < |rs| {
      assert rs[..|rs| - 1][..n] == rs[..n];
      FirstErrorStands(rs[..|rs| - 1], n);
    } else {
      assert rs[..n] == rs;
    }
  }

  // ---- what an accepted text says ----

  /** Every line is blank, a comment or a good assignment, no key is assigned twice, and m is exactly what they assign. */
  ghost predicate Declares(rs: seq<Reading>, m: map<string, string>) {
    && (forall i :: 0 <= i < |rs| ==>
         rs[i].Nothing? || (rs[i].Assigns? && rs[i].key in m && rs[i].value == Ok(m[rs[i].key])))
    && (forall i, j :: 0 <= i < j < |rs| && rs[i].Assigns? && rs[j].Assigns? ==> rs[i].key != rs[j].key)
    && (forall k :: k in m ==> Assigns(k, Ok(m[k])) in rs)
  }

  lemma DeclaresNext(rs: seq<Reading>, m: map<string, string>, r: Reading)
    requires Declares(rs, m)
    ensures match Take(m, r, |rs| + 1)
            case Ok(m') => Declares(rs + [r], m')
            case Err(_) => forall m' :: !Declares(rs + [r], m')
  {
    var after := rs + [r];
    match Take(m, r, |rs| + 1) {
      case Ok(m') =>
        forall k | k in m'
          ensures Assigns(k, Ok(m'[k])) in after
        {
          if r.Assigns? && k == r.key {
            assert after[|rs|] == r;
          }
        }
      case Err(_) =>
        assert after[|rs|] == r;
        if r.Assigns? && r.key in m {
          var i :| 0 <= i < |rs| && rs[i] == Assigns(r.key, Ok(m[r.key]));
          assert after[i] == rs[i];
        }
    }
  }

  lemma {:induction false} TakeAllDeclares(rs: seq<Reading>)
    ensures match TakeAll(rs)
            case Ok(m) => Declares(rs, m)
            case Err(_) => forall m :: !Declares(rs, m)
  {
    if rs != [] {
      var n := |rs| - 1;
      TakeAllDeclares(rs[..n]);
      assert rs == rs[..n] + [rs[n]];
      match TakeAll(rs[..n]) {
        case Ok(m) => DeclaresNext(rs[..n], m, rs[n]);
        case Err(_) =>
          forall m
            ensures !Declares(rs, m)
          {
            var shorter := map k | k in m && Assigns(k, Ok(m[k])) in rs[..n] :: m[k];
            assert !Declares(rs[..n], shorter);
            assert forall i :: 0 <= i < n ==> rs[..n][i] == rs[i];
            assert forall i :: 0 <= i < n ==> rs[i] in rs[..n];
          }
      }
    }
  }

  lemma DeclaresOneMap(rs: seq<Reading>, a: map<string, string>, b: map<string, string>)
    requires Declares(rs, a) && Declares(rs, b)
    ensures a == b
  {
  }

  /** Exactly which texts are accepted, and as what: no line is skipped over and no key wins over another. */
  lemma AcceptedExactlyWhenItDeclares(text: string, m: map<string, string>)
    ensures Parse(text) == Ok(m) <==> Declares(Readings(Lines(text)), m)
  {
    var rs := Readings(Lines(text));
    TakeAllDeclares(rs);
    if TakeAll(rs).Ok? && Declares(rs, m) {
      DeclaresOneMap(rs, TakeAll(rs).value, m);
    }
  }

  // ---- the round trip ----

  datatype Entry = Entry(key: string, value: string)

  function Quoted(value: string): string {
    ['"'] + value + ['"']
  }

  /** One line per variable: KEY="value". */
  function WriteLine(e: Entry): string {
    e.key + ['='] + Quoted(e.value)
  }

  function WriteLines(entries: seq<Entry>): (lines: seq<string>)
    ensures |lines| == |entries|
  {
    seq(|entries|, i requires 0 <= i < |entries| => WriteLine(entries[i]))
  }

  function Write(entries: seq<Entry>): string {
    Written(WriteLines(entries))
  }

  /** The entries list m: each variable once. */
  ghost predicate Lists(entries: seq<Entry>, m: map<string, string>) {
    && (forall i :: 0 <= i < |entries| ==> entries[i].key in m && m[entries[i].key] == entries[i].value)
    && (forall i, j :: 0 <= i < j < |entries| ==> entries[i].key != entries[j].key)
    && (forall k :: k in m ==> Entry(k, m[k]) in entries)
  }

  lemma KeyShape(key: string)
    requires ValidKey(key)
    ensures '=' !in key && '\n' !in key && key[0] != '#' && !IsSpace(key[0]) && !IsSpace(key[|key| - 1])
  {
  }

  lemma WriteLineShape(e: Entry)
    requires ValidKey(e.key)
    ensures var text, n := WriteLine(e), |e.key|;
            && TrimSpace(text) == text && text[0] != '#'
            && IndexOf(text, '=') == n && n < |text| && text[..n] == e.key && text[n + 1..] == Quoted(e.value)
  {
    KeyShape(e.key);
    hide ValidKey, TrimSpace, IndexOf;
    var text := WriteLine(e);
    assert text == e.key + ['='] + Quoted(e.value);
    assert text[0] == e.key[0] && text[|text| - 1] == '"';
    TrimmedAlready(text);
    IndexOfAfter(e.key, '=', Quoted(e.value));
  }

  lemma ReadOfWriteLine(e: Entry, line: nat)
    requires ValidKey(e.key)
    ensures Read(WriteLine(e), line) == Assigns(e.key, Ok(e.value))
  {
    WriteLineShape(e);
    KeyShape(e.key);
    QuotedValue(e.value, line);
    TrimmedAlready(e.key);
    TrimmedAlready(Quoted(e.value));
    hide ValidKey, TrimSpace, IndexOf, EnvValue, WriteLine, Quoted;
  }

  lemma QuotedValue(value: string, line: nat)
    ensures EnvValue(Quoted(value), line) == Ok(value)
  {
  }

  lemma ReadLacksNewlines(text: string, line: nat)
    requires '\n' !in text
    ensures var r := Read(text, line);
            r.Assigns? ==> ValidKey(r.key) && (r.value.Ok? ==> '\n' !in r.value.value)
  {
    var trimmed := TrimSpace(text);
    var i := IndexOf(trimmed, '=');
    if i < |trimmed| {
      var raw := TrimSpace(trimmed[i + 1..]);
      assert forall x :: x in raw ==> x in trimmed;
    }
  }

  lemma LineReadsBack(entries: seq<Entry>, i: nat)
    requires i < |entries| && ValidKey(entries[i].key) && '\n' !in entries[i].value
    ensures var line := WriteLine(entries[i]);
            && '\n' !in line && DropReturn(line) == line
            && Read(line, i + 1) == Assigns(entries[i].key, Ok(entries[i].value))
  {
    KeyShape(entries[i].key);
    ReadOfWriteLine(entries[i], i + 1);
  }

  lemma CleanEntriesReadBack(entries: seq<Entry>, m: map<string, string>)
    requires Lists(entries, m)
    requires forall k :: k in m ==> ValidKey(k) && '\n' !in m[k]
    ensures Declares(Readings(Lines(Write(entries))), m)
  {
    hide Read, ValidKey, DropReturn, Lines, Written, WriteLine, Declares;
    var lines := WriteLines(entries);
    forall i | 0 <= i < |lines|
      ensures '\n' !in lines[i] && DropReturn(lines[i]) == lines[i]
      ensures Read(lines[i], i + 1) == Assigns(entries[i].key, Ok(entries[i].value))
    {
      assert entries[i].key in m;
      LineReadsBack(entries, i);
    }
    LinesOfWritten(lines);
    EntriesDeclare(entries, m, Readings(lines));
  }

  lemma EntriesDeclare(entries: seq<Entry>, m: map<string, string>, rs: seq<Reading>)
    requires Lists(entries, m) && |rs| == |entries|
    requires forall i :: 0 <= i < |rs| ==> rs[i] == Assigns(entries[i].key, Ok(entries[i].value))
    ensures Declares(rs, m)
  {
  }

  /** An accepted text holds only variable names and values of one line. */
  lemma AcceptedIsClean(text: string, m: map<string, string>)
    requires Parse(text) == Ok(m)
    ensures forall k :: k in m ==> ValidKey(k) && '\n' !in m[k]
  {
    AcceptedExactlyWhenItDeclares(text, m);
    LinesLackNewlines(text);
    hide Read, ValidKey, Lines, Parse;
    var rs := Readings(Lines(text));
    forall k | k in m
      ensures ValidKey(k) && '\n' !in m[k]
    {
      var i :| 0 <= i < |rs| && rs[i] == Assigns(k, Ok(m[k]));
      ReadLacksNewlines(Lines(text)[i], i + 1);
    }
  }

  /** The round trip, exactly: what is written reads back as itself if and only if every name is a
      variable name and no value holds a newline. Quotes, hashes and spaces in a value are safe. */
  lemma WrittenReadsBackExactlyWhen(entries: seq<Entry>, m: map<string, string>)
    requires Lists(entries, m)
    ensures Parse(Write(entries)) == Ok(m) <==> forall k :: k in m ==> ValidKey(k) && '\n' !in m[k]
  {
    hide Read, ValidKey, Lines, Write, Parse, Lists, Declares;
    if forall k :: k in m ==> ValidKey(k) && '\n' !in m[k] {
      CleanEntriesReadBack(entries, m);
      AcceptedExactlyWhenItDeclares(Write(entries), m);
    }
    if Parse(Write(entries)) == Ok(m) {
      AcceptedIsClean(Write(entries), m);
    }
  }

  // ---- applying it ----

  /** The process environment; the system may refuse a variable. */
  class Environment {
    var vars: map<string, string>
    const refuses: (string, string) -> bool

    constructor (vars: map<string, string>, refuses: (string, string) -> bool)
      ensures this.vars == vars && this.refuses == refuses
    {
      this.vars, this.refuses := vars, refuses;
    }

    method Set(key: string, value: string) returns (ok: bool)
      modifies this
      ensures ok == !refuses(key, value)
      ensures vars == if ok then old(vars)[key := value] else old(vars)
    {
      ok := !refuses(key, value);
      if ok {
        vars := vars[key := value];
      }
    }

    /** The file fills gaps and wins no argument: every variable already set, to the empty string too, keeps its
        value; the rest come from the file. Keys are taken in some order, so the result holds of the sorted one. */
    method ApplyEnv(assignments: map<string, string>) returns (failed: Option<string>)
      modifies this
      ensures failed == None <==> forall k :: k in assignments && k !in old(vars) ==> !refuses(k, assignments[k])
      ensures failed == None ==> vars == assignments + old(vars)
      ensures failed.Some? ==>
                failed.value in assignments && failed.value !in vars && refuses(failed.value, assignments[failed.value])
      ensures forall k :: k in old(vars) ==> k in vars && vars[k] == old(vars)[k]
      ensures forall k :: k in vars && k !in old(vars) ==> k in assignments && vars[k] == assignments[k]
      // applied a second time, it changes nothing
      ensures (forall k :: k in assignments ==> k in old(vars)) ==> vars == old(vars)
    {
      var todo := assignments.Keys;
      while todo != {}
        invariant todo <= assignments.Keys
        invariant forall k :: k in old(vars) ==> k in vars && vars[k] == old(vars)[k]
        invariant forall k :: k in vars && k !in old(vars) ==>
                    k in assignments && k !in todo && vars[k] == assignments[k]
        invariant forall k :: k in assignments && k !in todo ==> k in vars
        invariant forall k :: k in assignments && k !in todo && k !in old(vars) ==> !refuses(k, assignments[k])
        decreases todo
      {
        var key :| key in todo;
        todo := todo - {key};
        if key !in vars {
          var ok := Set(key, assignments[key]);
          if !ok {
            return Some(key);
          }
        }
      }
      failed := None;
    }
  }
}

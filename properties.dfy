/**
 * Properties of the translation: what is kept and dropped, the order of the
 * output, which error is reported and where, case-insensitive opcode names,
 * and the shape of the test rendering.
 */
module AssemblyProperties {
  import opened JsonValue
  import opened Text
  import opened Assembly

  /** How many of the first n records are comments. */
  function CommentsBefore(records: seq<Json>, n: nat): (c: nat)
    requires n <= |records|
    ensures c <= n
  {
    if n == 0 then 0
    else CommentsBefore(records, n - 1) + (if IsComment(records[n - 1]) then 1 else 0)
  }

  /**
   * The positions of the non-comment records among the first n, ascending:
   * the records that become instructions.
   */
  function CommandPositions(records: seq<Json>, n: nat): (ps: seq<nat>)
    requires n <= |records|
    ensures |ps| == n - CommentsBefore(records, n)
    ensures forall j :: 0 <= j < |ps| ==> ps[j] < n
  {
    if n == 0 then []
    else
      var before := CommandPositions(records, n - 1);
      if IsComment(records[n - 1]) then before else before + [n - 1]
  }

  /** Every command position holds a non-comment record. */
  lemma {:induction false} CommandPositionsAreCommands(records: seq<Json>, n: nat)
    requires n <= |records|
    ensures forall j :: 0 <= j < |CommandPositions(records, n)| ==>
              !IsComment(records[CommandPositions(records, n)[j]])
  {
    if n > 0 {
      CommandPositionsAreCommands(records, n - 1);
      var before := CommandPositions(records, n - 1);
      var ps := CommandPositions(records, n);
      if IsComment(records[n - 1]) {
        assert ps == before;
      } else {
        assert ps == before + [n - 1];
        forall j | 0 <= j < |ps|
          ensures !IsComment(records[ps[j]])
        {
          if j < |before| {
            assert ps[j] == before[j];
          }
        }
      }
    }
  }

  /** The command positions are strictly ascending: input order is kept and no record appears twice. */
  lemma {:induction false} CommandPositionsAscending(records: seq<Json>, n: nat)
    requires n <= |records|
    ensures forall i, j :: 0 <= i < j < |CommandPositions(records, n)| ==>
              CommandPositions(records, n)[i] < CommandPositions(records, n)[j]
  {
    if n > 0 {
      CommandPositionsAscending(records, n - 1);
      var before := CommandPositions(records, n - 1);
      var ps := CommandPositions(records, n);
      if IsComment(records[n - 1]) {
        assert ps == before;
      } else {
        assert ps == before + [n - 1];
        forall i, j | 0 <= i < j < |ps|
          ensures ps[i] < ps[j]
        {
          assert ps[i] == before[i];
          if j < |before| {
            assert ps[j] == before[j];
          }
        }
      }
    }
  }

  /** Every non-comment record among the first n has its position listed. */
  lemma {:induction false} CommandPositionsComplete(records: seq<Json>, n: nat)
    requires n <= |records|
    ensures forall k :: 0 <= k < n && !IsComment(records[k]) ==> k in CommandPositions(records, n)
  {
    if n > 0 {
      CommandPositionsComplete(records, n - 1);
      var before := CommandPositions(records, n - 1);
      if !IsComment(records[n - 1]) {
        assert CommandPositions(records, n) == before + [n - 1];
      }
    }
  }

  /** What the first n records translate to depends on those n records only. */
  lemma {:induction false} PrefixOnly(a: seq<Json>, b: seq<Json>, n: nat)
    requires n <= |a| && n <= |b| && a[..n] == b[..n]
    ensures TranslatePrefix(a, n) == TranslatePrefix(b, n)
  {
    if n > 0 {
      assert a[..n - 1] == b[..n - 1];
      assert a[n - 1] == a[..n][n - 1] == b[..n][n - 1] == b[n - 1];
      PrefixOnly(a, b, n - 1);
    }
  }

  /** Appending one record: the translation so far, extended by that record's effect. */
  lemma Append(records: seq<Json>, r: Json)
    ensures Translate(records + [r]) ==
            match Translate(records)
            case Err(e) => Err(e)
            case Ok(p) =>
              if IsComment(r) then Ok(p)
              else
                match ParseCommand(r, |records|)
                case Err(e) => Err(e)
                case Ok(ins) => Ok(p + [ins])
  {
    var all := records + [r];
    assert all[..|records|] == records[..|records|];
    PrefixOnly(all, records, |records|);
    assert all[|records|] == r;
  }

  /** Every non-comment record among the first n parses on its own. */
  predicate CommandsParse(records: seq<Json>, n: nat)
    requires n <= |records|
  {
    forall k :: 0 <= k < n && !IsComment(records[k]) ==> ParseCommand(records[k], k).Ok?
  }

  lemma CommandsParseStep(records: seq<Json>, n: nat)
    requires 0 < n <= |records|
    ensures CommandsParse(records, n) <==>
            CommandsParse(records, n - 1) &&
            (IsComment(records[n - 1]) || ParseCommand(records[n - 1], n - 1).Ok?)
  {
  }

  /** A translation succeeds exactly when every non-comment record parses. */
  lemma {:induction false} TranslateOkIff(records: seq<Json>, n: nat)
    requires n <= |records|
    ensures TranslatePrefix(records, n).Ok? <==> CommandsParse(records, n)
  {
    if n > 0 {
      TranslateOkIff(records, n - 1);
      CommandsParseStep(records, n);
      if TranslatePrefix(records, n - 1).Err? {
        FailingPrefix(records, n - 1);
      }
    }
  }

  /**
   * A successful translation has one instruction per non-comment record:
   * comments are dropped and nothing is merged or invented.
   */
  lemma {:induction false} TranslateOkLength(records: seq<Json>, n: nat)
    requires n <= |records|
    requires TranslatePrefix(records, n).Ok?
    ensures |TranslatePrefix(records, n).value| == |CommandPositions(records, n)| == n - CommentsBefore(records, n)
  {
    if n > 0 {
      assert TranslatePrefix(records, n - 1).Ok?;
      TranslateOkLength(records, n - 1);
    }
  }

  /**
   * A successful translation lists the instructions of the non-comment
   * records in the records' order, each the translation of its record at its
   * own position.
   */
  lemma {:induction false} TranslateOkContents(records: seq<Json>, n: nat)
    requires n <= |records|
    requires TranslatePrefix(records, n).Ok?
    ensures var p := TranslatePrefix(records, n).value;
            var ps := CommandPositions(records, n);
            && |p| == |ps|
            && forall j :: 0 <= j < |p| ==> ParseCommand(records[ps[j]], ps[j]) == Ok(p[j])
  {
    TranslateOkLength(records, n);
    if n > 0 {
      assert TranslatePrefix(records, n - 1).Ok?;
      TranslateOkContents(records, n - 1);
      var prev := TranslatePrefix(records, n - 1).value;
      var p := TranslatePrefix(records, n).value;
      var before := CommandPositions(records, n - 1);
      var ps := CommandPositions(records, n);
      if !IsComment(records[n - 1]) {
        var parsed := ParseCommand(records[n - 1], n - 1);
        assert p == prev + [parsed.value] && ps == before + [n - 1];
        forall j | 0 <= j < |p|
          ensures ParseCommand(records[ps[j]], ps[j]) == Ok(p[j])
        {
          if j < |prev| {
            assert p[j] == prev[j] && ps[j] == before[j];
          }
        }
      }
    }
  }

  /** The whole-list form: the output has as many entries as there are non-comment records. */
  lemma TranslateCount(records: seq<Json>)
    requires Translate(records).Ok?
    ensures |Translate(records).value| == |records| - CommentsBefore(records, |records|)
  {
    TranslateOkLength(records, |records|);
  }

  /**
   * A failed translation reports the first failing record: its position
   * counts every record before it, comments included; every command record
   * before it parses; and the error is that record's own.
   */
  lemma FirstErrorReported(records: seq<Json>, n: nat)
    requires n <= |records|
    requires TranslatePrefix(records, n).Err?
    ensures var e := TranslatePrefix(records, n).error;
            && e.AtRecord() && e.index < n
            && !IsComment(records[e.index])
            && ParseCommand(records[e.index], e.index) == Err(e)
            && CommandsParse(records, e.index)
  {
    var e := TranslatePrefix(records, n).error;
    FailingPrefix(records, n);
    TranslateOkIff(records, e.index);
  }

  /** The prefix that first fails ends at the reported record, and the prefix before it succeeds. */
  lemma {:induction false} FailingPrefix(records: seq<Json>, n: nat)
    requires n <= |records|
    requires TranslatePrefix(records, n).Err?
    ensures var e := TranslatePrefix(records, n).error;
            && TranslatePrefix(records, e.index).Ok?
            && ParseCommand(records[e.index], e.index) == Err(e)
  {
    if TranslatePrefix(records, n - 1).Err? {
      FailingPrefix(records, n - 1);
    }
  }

  /** Conversely, the first failing command record decides the error of every longer prefix. */
  lemma FirstFailureDecides(records: seq<Json>, k: nat, n: nat)
    requires k < n <= |records|
    requires !IsComment(records[k]) && ParseCommand(records[k], k).Err?
    requires CommandsParse(records, k)
    ensures TranslatePrefix(records, n) == Err(ParseCommand(records[k], k).error)
  {
    TranslateOkIff(records, k);
    ErrorSticks(records, k + 1, n);
  }

  /** Moving a record d positions further on moves its error with it and changes nothing else. */
  lemma ParseCommandShift(cmd: Json, num: nat, d: nat)
    ensures ParseCommand(cmd, num + d) ==
            match ParseCommand(cmd, num)
            case Ok(ins) => Ok(ins)
            case Err(e) => Err(e.Shifted(d))
  {
  }

  /**
   * A comment in front of a program changes no instruction, but every error
   * is then reported one position later: positions count comments.
   */
  lemma {:induction false} LeadingCommentShifts(c: Json, records: seq<Json>, n: nat)
    requires IsComment(c)
    requires n <= |records|
    ensures TranslatePrefix([c] + records, n + 1) ==
            match TranslatePrefix(records, n)
            case Ok(p) => Ok(p)
            case Err(e) => Err(e.Shifted(1))
  {
    var all := [c] + records;
    if n == 0 {
      assert all[0] == c;
      assert TranslatePrefix(all, 0) == Ok([]);
    } else {
      LeadingCommentShifts(c, records, n - 1);
      var cmd := records[n - 1];
      assert all[n] == cmd;
      match TranslatePrefix(records, n - 1)
      case Err(e) =>
        assert TranslatePrefix(all, n) == Err(e.Shifted(1));
      case Ok(p) =>
        assert TranslatePrefix(all, n) == Ok(p);
        if !IsComment(cmd) {
          ParseCommandShift(cmd, n - 1, 1);
        }
    }
  }

  /** An object with "_comment" and any other key is not skipped: it is parsed as a command. */
  lemma CommentWithOtherKeys(fields: map<string, Json>)
    requires "_comment" in fields && |fields| > 1
    ensures !IsComment(JObject(fields))
    ensures Translate([JObject(fields)]) ==
            match ParseCommand(JObject(fields), 0)
            case Ok(ins) => Ok([ins])
            case Err(e) => Err(e)
  {
    assert |fields.Keys| > 1;
    var one := [JObject(fields)];
    assert one[0] == JObject(fields);
    assert TranslatePrefix(one, 0) == Ok([]);
    assert !IsComment(one[0]);
    match ParseCommand(JObject(fields), 0)
    case Ok(ins) =>
      assert TranslatePrefix(one, 1) == Ok([] + [ins]);
      assert [] + [ins] == [ins];
    case Err(e) =>
  }

  /** A string op names an opcode exactly when its lower-case form is that opcode's name. */
  lemma OpcodeOfString(s: string, o: Opcode)
    ensures OpcodeOf(JString(s)) == Some(o) <==> AsciiLower(s) == o.Name()
  {
  }

  /** A record whose op is not a string never names an opcode. */
  lemma NonStringOpUnknown(fields: map<string, Json>, num: nat)
    requires "op" in fields && !fields["op"].JString?
    ensures ParseCommand(JObject(fields), num) == Err(UnknownOpcode(num, fields["op"]))
  {
  }

  /** Two op strings that agree up to ASCII case give the same translation, error or not. */
  lemma CaseInsensitive(fields: map<string, Json>, num: nat, s: string, t: string)
    requires AsciiLower(s) == AsciiLower(t)
    ensures ParseCommand(JObject(fields["op" := JString(s)]), num) ==
            ParseCommand(JObject(fields["op" := JString(t)]), num)
  {
  }

  /**
   * The test rendering splits back into exactly one line per instruction, in
   * order, when no operand text holds a newline.
   */
  lemma RenderLines(prog: seq<Instruction>, show: Json -> string)
    requires prog != []
    requires forall j :: 0 <= j < |prog| ==> '\n' !in show(prog[j].b) && '\n' !in show(prog[j].c)
    ensures SplitLines(Render(prog, show)) == seq(|prog|, j requires 0 <= j < |prog| => Line(prog[j], show))
  {
    var lines := seq(|prog|, j requires 0 <= j < |prog| => Line(prog[j], show));
    forall j | 0 <= j < |lines|
      ensures '\n' !in lines[j]
    {
      var ins := prog[j];
      assert lines[j] == "A=" + IntText(ins.a) + " B=" + show(ins.b) + " C=" + show(ins.c);
    }
    SplitJoin(lines);
  }
}

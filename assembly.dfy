/**
 * The translator of the assembler for the four-instruction educational virtual
 * machine: a list of JSON records becomes a list of (A, B, C) triples.
 */
module Assembly {
  import opened JsonValue
  import opened Text

  datatype Option<T> = None | Some(value: T)

  /** One instruction of the intermediate representation; B and C are passed through. */
  datatype Instruction = Instruction(a: int, b: Json, c: Json)

  /** The instruction set: its names, opcode numbers and the fields that fill B and C. */
  datatype Opcode = LoadConst | ReadMem | WriteMem | Popcnt {

    function Name(): string {
      match this
      case LoadConst => "load_const"
      case ReadMem => "read_mem"
      case WriteMem => "write_mem"
      case Popcnt => "popcnt"
    }

    function Code(): int {
      match this
      case LoadConst => 39
      case ReadMem => 30
      case WriteMem => 22
      case Popcnt => 61
    }

    /** The record field that becomes B. */
    function BField(): string {
      if LoadConst? then "const" else "src"
    }

    /** The record field that becomes C. */
    function CField(): string {
      if LoadConst? then "addr" else "dst"
    }
  }

  /** One variant per place where the assembler raises its syntax error. */
  datatype AsmError =
    | MalformedDocument(diagnostic: string)
    | InvalidProgramShape
    | NotAnObject(index: nat)
    | MissingOp(index: nat)
    | MissingOperands(index: nat, opcode: Opcode)
    | UnknownOpcode(index: nat, given: Json)
  {
    /** Errors raised while looking at one record carry that record's position. */
    predicate AtRecord() {
      !MalformedDocument? && !InvalidProgramShape?
    }

    /** The same error, reported for a record d positions further on. */
    function Shifted(d: nat): (e: AsmError)
      ensures e.AtRecord() == AtRecord()
      ensures AtRecord() ==> e.index == index + d
    {
      if AtRecord() then this.(index := index + d) else this
    }
  }

  datatype Result<T> = Ok(value: T) | Err(error: AsmError)

  /**
   * The op value as the assembler compares it: a string lower-cased, any other
   * value as it is (its text can never spell an opcode name).
   */
  function NormalizedOp(v: Json): (r: Json)
    ensures forall o: Opcode :: r == JString(o.Name()) <==> v.JString? && AsciiLower(v.s) == o.Name()
    ensures forall t: string :: v.JString? && AsciiLower(t) == AsciiLower(v.s) ==> r == JString(AsciiLower(t))
  {
    if v.JString? then JString(AsciiLower(v.s)) else v
  }

  /** The opcode whose name the normalised op value spells, if there is one. */
  function OpcodeOf(v: Json): (r: Option<Opcode>)
    ensures r.Some? ==> NormalizedOp(v) == JString(r.value.Name())
    ensures r.None? ==> forall o: Opcode :: NormalizedOp(v) != JString(o.Name())
  {
    match NormalizedOp(v)
    case JString(name) =>
      if name == "load_const" then Some(LoadConst)
      else if name == "read_mem" then Some(ReadMem)
      else if name == "write_mem" then Some(WriteMem)
      else if name == "popcnt" then Some(Popcnt)
      else None
    case _ => None
  }

  /**
   * Translate one record found at position num: it must be an object with an
   * op naming one of the four opcodes and both of that opcode's operand fields.
   */
  function ParseCommand(cmd: Json, num: nat): (r: Result<Instruction>)
    ensures r.Err? ==> r.error.AtRecord() && r.error.index == num
  {
    if !cmd.JObject? then Err(NotAnObject(num))
    else if "op" !in cmd.fields then Err(MissingOp(num))
    else
      var f := cmd.fields;
      var op := NormalizedOp(f["op"]);
      if op == JString("load_const") then
        if "const" !in f || "addr" !in f then Err(MissingOperands(num, LoadConst))
        else Ok(Instruction(39, f["const"], f["addr"]))
      else if op == JString("read_mem") then
        if "src" !in f || "dst" !in f then Err(MissingOperands(num, ReadMem))
        else Ok(Instruction(30, f["src"], f["dst"]))
      else if op == JString("write_mem") then
        if "src" !in f || "dst" !in f then Err(MissingOperands(num, WriteMem))
        else Ok(Instruction(22, f["src"], f["dst"]))
      else if op == JString("popcnt") then
        if "src" !in f || "dst" !in f then Err(MissingOperands(num, Popcnt))
        else Ok(Instruction(61, f["src"], f["dst"]))
      else Err(UnknownOpcode(num, op))
  }

  /**
   * The four branches of ParseCommand follow the opcode table: an op that
   * names an opcode yields that opcode's code with the B and C fields taken
   * unchanged when both keys are present, and the missing-operands error
   * otherwise; any other op yields the unknown-opcode error.
   */
  lemma ParseCommandFollowsTable(cmd: Json, num: nat)
    ensures !cmd.JObject? ==> ParseCommand(cmd, num) == Err(NotAnObject(num))
    ensures cmd.JObject? && "op" !in cmd.fields ==> ParseCommand(cmd, num) == Err(MissingOp(num))
    ensures cmd.JObject? && "op" in cmd.fields && OpcodeOf(cmd.fields["op"]).None? ==>
              ParseCommand(cmd, num) == Err(UnknownOpcode(num, NormalizedOp(cmd.fields["op"])))
    ensures cmd.JObject? && "op" in cmd.fields && OpcodeOf(cmd.fields["op"]).Some? ==>
              var o := OpcodeOf(cmd.fields["op"]).value;
              ParseCommand(cmd, num) ==
                if o.BField() in cmd.fields && o.CField() in cmd.fields
                then Ok(Instruction(o.Code(), cmd.fields[o.BField()], cmd.fields[o.CField()]))
                else Err(MissingOperands(num, o))
  {
  }

  /** A comment record: an object holding "_comment" and nothing else. */
  predicate IsComment(cmd: Json) {
    cmd.JObject? && "_comment" in cmd.fields && |cmd.fields| == 1
  }

  /** A record is skipped exactly when it is an object whose key set is {"_comment"}. */
  lemma CommentKeys(cmd: Json)
    ensures IsComment(cmd) <==> cmd.JObject? && cmd.fields.Keys == {"_comment"}
  {
    if cmd.JObject? {
      var m := cmd.fields;
      if "_comment" in m && |m| == 1 {
        var rest := m.Keys - {"_comment"};
        assert |m.Keys| == |rest| + 1;
        assert rest == {};
      }
      if m.Keys == {"_comment"} {
        assert |m| == |m.Keys| == 1;
      }
    }
  }

  /**
   * What the loop of the assembler has produced after looking at the first n
   * records: the instructions of the non-comment records among them, or the
   * error of the first one that fails. Positions count every record.
   */
  function TranslatePrefix(records: seq<Json>, n: nat): (r: Result<seq<Instruction>>)
    requires n <= |records|
    ensures r.Ok? ==> |r.value| <= n
    ensures r.Err? ==> r.error.AtRecord() && r.error.index < n && !IsComment(records[r.error.index])
  {
    if n == 0 then Ok([])
    else
      match TranslatePrefix(records, n - 1)
      case Err(e) => Err(e)
      case Ok(done) =>
        var cmd := records[n - 1];
        if IsComment(cmd) then Ok(done)
        else
          match ParseCommand(cmd, n - 1)
          case Err(e) => Err(e)
          case Ok(ins) => Ok(done + [ins])
  }

  /** The translation of a whole list of records. */
  function Translate(records: seq<Json>): (r: Result<seq<Instruction>>)
    ensures r.Err? ==> r.error.AtRecord() && r.error.index < |records|
  {
    TranslatePrefix(records, |records|)
  }

  /** The translation of a decoded document: it must be a list of records. */
  function Assemble(doc: Decoded): (r: Result<seq<Instruction>>)
    ensures doc.Malformed? ==> r == Err(MalformedDocument(doc.diagnostic))
    ensures doc.Document? && !doc.value.JArray? ==> r == Err(InvalidProgramShape)
    ensures r.Err? && r.error.AtRecord() ==> doc.Document? && doc.value.JArray?
    ensures r.Ok? ==> doc.Document? && doc.value.JArray? && |r.value| <= |doc.value.items|
  {
    match doc
    case Malformed(d) => Err(MalformedDocument(d))
    case Document(v) => if v.JArray? then Translate(v.items) else Err(InvalidProgramShape)
  }

  /** Once a prefix has failed, every longer prefix fails with the same error. */
  lemma {:induction false} ErrorSticks(records: seq<Json>, n: nat, m: nat)
    requires n <= m <= |records|
    requires TranslatePrefix(records, n).Err?
    ensures TranslatePrefix(records, m) == TranslatePrefix(records, n)
    decreases m - n
  {
    if n < m {
      ErrorSticks(records, n, m - 1);
    }
  }

  /** The text line of one instruction. */
  function Line(ins: Instruction, show: Json -> string): (r: string)
    ensures ("A=" + IntText(ins.a)) <= r
    ensures '\n' !in show(ins.b) && '\n' !in show(ins.c) ==> '\n' !in r
  {
    "A=" + IntText(ins.a) + " B=" + show(ins.b) + " C=" + show(ins.c)
  }

  /** The test rendering: one line per instruction, in order, without a trailing newline. */
  function Render(prog: seq<Instruction>, show: Json -> string): (r: string)
    ensures prog == [] <==> r == ""
    ensures prog != [] ==> "A=" <= r
  {
    JoinLines(seq(|prog|, j requires 0 <= j < |prog| => Line(prog[j], show)))
  }

  /** The assembler object: it keeps the instructions of the last parse. */
  class Assembler {
    var instructions: seq<Instruction>

    constructor ()
      ensures instructions == []
    {
      instructions := [];
    }

    /**
     * Translate a decoded document. On success the stored instructions are the
     * result; a document that is not a list leaves them untouched; a failure
     * at a record leaves the instructions of the records before it.
     */
    method Parse(doc: Decoded) returns (r: Result<seq<Instruction>>)
      modifies this
      ensures r == Assemble(doc)
      ensures r.Ok? ==> instructions == r.value
      ensures r.Err? && !r.error.AtRecord() ==> instructions == old(instructions)
      ensures r.Err? && r.error.AtRecord() ==>
                doc.Document? && doc.value.JArray? &&
                TranslatePrefix(doc.value.items, r.error.index) == Ok(instructions)
    {
      if doc.Malformed? {
        return Err(MalformedDocument(doc.diagnostic));
      }
      var program := doc.value;
      if !program.JArray? {
        return Err(InvalidProgramShape);
      }
      var records := program.items;
      instructions := [];
      for i := 0 to |records|
        invariant TranslatePrefix(records, i) == Ok(instructions)
      {
        var cmd := records[i];
        if IsComment(cmd) {
          continue;
        }
        var parsed := ParseCommand(cmd, i);
        if parsed.Err? {
          ErrorSticks(records, i + 1, |records|);
          return Err(parsed.error);
        }
        instructions := instructions + [parsed.value];
      }
      return Ok(instructions);
    }

    /** The test output of the stored instructions. */
    function TestOutput(show: Json -> string): (r: string)
      reads this
      ensures instructions == [] <==> r == ""
      ensures r == Render(instructions, show)
    {
      Render(instructions, show)
    }
  }
}

/** Concrete programs and what the translator makes of them. */
module AssemblyExamples {
  import opened JsonValue
  import opened Text
  import opened Assembly
  import opened AssemblyProperties

  function Program(records: seq<Json>): Decoded {
    Document(JArray(records))
  }

  /** The translation of a one-record program. */
  lemma Single(r: Json)
    ensures Translate([r]) ==
            if IsComment(r) then Ok([])
            else
              match ParseCommand(r, 0)
              case Err(e) => Err(e)
              case Ok(ins) => Ok([ins])
  {
    Append([], r);
    assert [] + [r] == [r];
    assert Translate([]) == Ok([]);
    match ParseCommand(r, 0)
    case Err(e) =>
    case Ok(ins) => assert [] + [ins] == [ins];
  }

  lemma LoadConstProgram()
    ensures Assemble(Program([JObject(map["op" := JString("load_const"), "const" := JInt(42), "addr" := JInt(0)])]))
            == Ok([Instruction(39, JInt(42), JInt(0))])
  {
    var rec := JObject(map["op" := JString("load_const"), "const" := JInt(42), "addr" := JInt(0)]);
    LowerOfLowered("load_const");
    assert ParseCommand(rec, 0) == Ok(Instruction(39, JInt(42), JInt(0)));
    Single(rec);
  }

  lemma ReadMemThenPopcnt()
    ensures Assemble(Program([JObject(map["op" := JString("read_mem"), "src" := JInt(0), "dst" := JInt(1)]),
                              JObject(map["op" := JString("popcnt"), "src" := JInt(1), "dst" := JInt(2)])]))
            == Ok([Instruction(30, JInt(0), JInt(1)), Instruction(61, JInt(1), JInt(2))])
  {
    var r1 := JObject(map["op" := JString("read_mem"), "src" := JInt(0), "dst" := JInt(1)]);
    var r2 := JObject(map["op" := JString("popcnt"), "src" := JInt(1), "dst" := JInt(2)]);
    LowerOfLowered("read_mem");
    LowerOfLowered("popcnt");
    assert ParseCommand(r1, 0) == Ok(Instruction(30, JInt(0), JInt(1)));
    assert ParseCommand(r2, 1) == Ok(Instruction(61, JInt(1), JInt(2)));
    assert !IsComment(r1) && !IsComment(r2);
    Single(r1);
    assert [r1] + [r2] == [r1, r2];
    Append([r1], r2);
    assert [Instruction(30, JInt(0), JInt(1))] + [Instruction(61, JInt(1), JInt(2))]
        == [Instruction(30, JInt(0), JInt(1)), Instruction(61, JInt(1), JInt(2))];
  }

  lemma CommentThenWriteMem()
    ensures Assemble(Program([JObject(map["_comment" := JString("init")]),
                              JObject(map["op" := JString("write_mem"), "src" := JInt(2), "dst" := JInt(3)])]))
            == Ok([Instruction(22, JInt(2), JInt(3))])
  {
    var r1 := JObject(map["_comment" := JString("init")]);
    var r2 := JObject(map["op" := JString("write_mem"), "src" := JInt(2), "dst" := JInt(3)]);
    LowerOfLowered("write_mem");
    assert IsComment(r1);
    assert ParseCommand(r2, 1) == Ok(Instruction(22, JInt(2), JInt(3)));
    assert !IsComment(r2);
    Single(r1);
    assert [r1] + [r2] == [r1, r2];
    Append([r1], r2);
    assert [] + [Instruction(22, JInt(2), JInt(3))] == [Instruction(22, JInt(2), JInt(3))];
  }

  lemma CommentOnly()
    ensures Assemble(Program([JObject(map["_comment" := JString("x")])])) == Ok([])
  {
    Single(JObject(map["_comment" := JString("x")]));
  }

  lemma UpperCaseOpcode()
    ensures Assemble(Program([JObject(map["op" := JString("LOAD_CONST"), "const" := JInt(7), "addr" := JInt(3)])]))
            == Ok([Instruction(39, JInt(7), JInt(3))])
  {
    var rec := JObject(map["op" := JString("LOAD_CONST"), "const" := JInt(7), "addr" := JInt(3)]);
    assert AsciiLower("LOAD_CONST") == "load_const";
    assert ParseCommand(rec, 0) == Ok(Instruction(39, JInt(7), JInt(3)));
    Single(rec);
  }

  lemma ObjectIsNotAProgram()
    ensures Assemble(Document(JObject(map["op" := JString("popcnt")]))) == Err(InvalidProgramShape)
  {
  }

  lemma MissingDestination()
    ensures Assemble(Program([JObject(map["op" := JString("popcnt"), "src" := JInt(5)])]))
            == Err(MissingOperands(0, Popcnt))
  {
    var rec := JObject(map["op" := JString("popcnt"), "src" := JInt(5)]);
    LowerOfLowered("popcnt");
    assert ParseCommand(rec, 0) == Err(MissingOperands(0, Popcnt));
    Single(rec);
  }

  lemma BogusOpcodeAfterComment()
    ensures Assemble(Program([JObject(map["_comment" := JString("x")]),
                              JObject(map["op" := JString("Bogus"), "src" := JInt(0), "dst" := JInt(1)])]))
            == Err(UnknownOpcode(1, JString("bogus")))
  {
    var r1 := JObject(map["_comment" := JString("x")]);
    var r2 := JObject(map["op" := JString("Bogus"), "src" := JInt(0), "dst" := JInt(1)]);
    assert AsciiLower("Bogus") == "bogus";
    assert IsComment(r1);
    assert ParseCommand(r2, 1) == Err(UnknownOpcode(1, JString("bogus")));
    Single(r1);
    assert [r1] + [r2] == [r1, r2];
    Append([r1], r2);
  }

  lemma NullOperandIsPresent()
    ensures Assemble(Program([JObject(map["op" := JString("read_mem"), "src" := JNull, "dst" := JBool(false)])]))
            == Ok([Instruction(30, JNull, JBool(false))])
  {
    var rec := JObject(map["op" := JString("read_mem"), "src" := JNull, "dst" := JBool(false)]);
    LowerOfLowered("read_mem");
    assert ParseCommand(rec, 0) == Ok(Instruction(30, JNull, JBool(false)));
    Single(rec);
  }

  lemma Decimals()
    ensures IntText(39) == "39" && IntText(42) == "42" && IntText(0) == "0"
    ensures IntText(61) == "61" && IntText(1) == "1" && IntText(-2) == "-2"
  {
    assert NatText(3) == "3" && NatText(4) == "4" && NatText(6) == "6";
    assert NatText(39) == NatText(3) + [DigitChar(9)];
    assert NatText(42) == NatText(4) + [DigitChar(2)];
    assert NatText(61) == NatText(6) + [DigitChar(1)];
  }

  /** Integer operands shown in decimal; other operand values are not needed here. */
  function ShowInt(v: Json): string {
    if v.JInt? then IntText(v.i) else ""
  }

  function FirstLineText(): string { "A=39 B=42 C=0" }

  function SecondLineText(): string { "A=61 B=1 C=-2" }

  lemma FirstLine()
    ensures Line(Instruction(39, JInt(42), JInt(0)), ShowInt) == FirstLineText()
  {
    Decimals();
  }

  lemma SecondLine()
    ensures Line(Instruction(61, JInt(1), JInt(-2)), ShowInt) == SecondLineText()
  {
    Decimals();
  }

  /** Two instructions render as their two lines joined by one newline. */
  lemma RenderTwoLines()
    ensures Render([Instruction(39, JInt(42), JInt(0)), Instruction(61, JInt(1), JInt(-2))], ShowInt)
            == FirstLineText() + "\n" + SecondLineText()
  {
    var prog := [Instruction(39, JInt(42), JInt(0)), Instruction(61, JInt(1), JInt(-2))];
    var lines := seq(|prog|, j requires 0 <= j < |prog| => Line(prog[j], ShowInt));
    FirstLine();
    SecondLine();
    assert lines == [FirstLineText(), SecondLineText()];
    assert lines[..1] == [FirstLineText()];
    assert JoinLines(lines) == JoinLines(lines[..1]) + "\n" + lines[1];
  }
}

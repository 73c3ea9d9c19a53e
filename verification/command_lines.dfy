/** Small command lines, parsed and refused. */
module CommandLines {
  import opened Literals
  import opened TokenLoop

  /** A program with one positional argument, which takes one token of any kind. */
  method OneFile() returns (parser: Parser, file: Argument)
    ensures parser.Valid() && parser.arguments == [file] && parser.positionals == [0] && parser.prefixChars == "-"
    ensures file.min == 1 && file.max == 1 && !file.repeatable && !file.optionalLike
    ensures (forall token :: file.accepts(token)) && !file.used && file.given == []
    ensures fresh(parser) && fresh(file)
  {
    file := new Argument(1, 1, false, false, false, (token: string) => true);
    parser := new Parser("-", [file], [0], map[], {});
  }

  lemma FileIsShared(parser: Parser, file: Argument)
    requires parser.arguments == [file] && parser.positionals == [0] && parser.prefixChars == "-"
    requires file.min == 1 && file.max == 1 && !file.repeatable && !file.optionalLike && forall token :: file.accepts(token)
    ensures parser.SharedOut(["prog", "file"], [AsPositional(Use(0, 1, ["file"]))], [false])
  {
    var tokens, u := ["prog", "file"], Use(0, 1, ["file"]);
    var steps := [AsPositional(u)];
    assert steps[..0] == [];
    assert file.StopsAt(tokens, 1, 2, "-");
    assert tokens[1..2] == ["file"];
    assert parser.Granted(tokens, [], [false], u);
    assert parser.Follows(tokens, 1, [], [false], steps[0]);
    assert parser.Shared(tokens, [], [false]);
  }

  lemma FileIsGiven(parser: Parser, file: Argument)
    requires parser.arguments == [file] && parser.positionals == [0]
    requires parser.Ledger(Uses([AsPositional(Use(0, 1, ["file"]))]), [[]], [false])
    ensures file.given == ["file"]
  {
    var u := Use(0, 1, ["file"]);
    var steps := [AsPositional(u)];
    assert steps[..0] == [] && [u][..0] == [];
    assert Uses(steps) == [u];
    assert GivenTo([u], 0) == ["file"];
    assert parser.arguments[0].Entered(GivenTo(Uses(steps), 0), TimesUsed(Uses(steps), 0), [], false);
  }

  lemma EmptyLedger(parser: Parser, file: Argument)
    requires parser.arguments == [file] && !file.used && file.given == []
    ensures parser.Ledger([], [[]], [false])
  {
  }

  /** One token for one positional argument that accepts it is parsed, and given to that argument. */
  method FileIsParsed() returns (outcome: Verdict, given: seq<string>)
    ensures outcome == Parsed && given == ["file"]
  {
    hide Parser.Ledger, Parser.Shared, Parser.SharedOut, Parser.Accounted, Parser.Stuck, Uses, Positional;
    var parser, file := OneFile();
    EmptyLedger(parser, file);
    FileIsShared(parser, file);
    ghost var steps, at, partly;
    outcome, steps, at, partly := parser.ParseArgsInternal(["prog", "file"], [[]], [false]);
    parser.OneWay(["prog", "file"], steps, [AsPositional(Use(0, 1, ["file"]))], [false]);
    FileIsGiven(parser, file);
    given := file.given;
  }

  /** A flag "-a", an option "-n" with one value, and one positional argument. */
  ghost predicate Small(parser: Parser, a: Argument, n: Argument, file: Argument)
  {
    && parser.arguments == [a, n, file] && parser.positionals == [2] && parser.prefixChars == "-"
    && parser.argumentMap == map["-a" := 0, "-n" := 1]
    && a.min == a.max == 0 && n.min == n.max == 1 && file.min == file.max == 1
    && !a.optionalLike && !n.optionalLike && !file.optionalLike
    && (forall token :: n.accepts(token)) && (forall token :: file.accepts(token))
  }

  const LINE := ["prog", "-an", "3", "file"]
  const LINE_USES := [Use(0, 2, []), Use(1, 2, ["3"])]
  const NOBODY := [false, false, false]

  lemma CompoundChained(parser: Parser, a: Argument, n: Argument, file: Argument)
    requires Small(parser, a, n, file)
    ensures parser.Chained(LINE, ["-a", "-n"], 2, [], NOBODY, LINE_USES) && UsedTokens(LINE_USES) == ["3"]
  {
    assert LINE[2..2] == [] && LINE[2..3] == ["3"];
    assert LINE_USES[..0] == [] && LINE_USES[..1] == [LINE_USES[0]] && UsedTokens([LINE_USES[0]]) == [];
    assert TimesUsed([LINE_USES[0]], 1) == 0 by { assert [LINE_USES[0]][..0] == []; }
    a.TakesNothing(LINE, 2, 2, "-");
    n.TakesExactly(LINE, 2, 3, "-");
    assert parser.Granted(LINE, [], NOBODY, LINE_USES[0]);
    assert parser.Granted(LINE, [LINE_USES[0]], NOBODY, LINE_USES[1]);
    assert parser.LinkAt(LINE, ["-a", "-n"], 2, [], NOBODY, LINE_USES, 0);
    assert parser.LinkAt(LINE, ["-a", "-n"], 2, [], NOBODY, LINE_USES, 1);
  }

  lemma CompoundFollows(parser: Parser, a: Argument, n: Argument, file: Argument)
    requires Small(parser, a, n, file)
    ensures parser.Follows(LINE, 1, [], NOBODY, AsOption("-an", LINE_USES))
  {
    CompoundChained(parser, a, n, file);
    hide Parser.Chained;
    parser.NamesExactly("-an");
    assert parser.Names("-an") == ["-a", "-n"];
    NumbersAreNoOptions();
    LiteralByFirst("an");
    assert "-an"[1..] == "an" && !FractionalPart("an");
    assert Uses([]) == [];
  }

  lemma FileIsUnused()
    ensures Uses([AsOption("-an", LINE_USES)]) == LINE_USES && PositionalUses([AsOption("-an", LINE_USES)]) == []
    ensures TimesUsed(LINE_USES, 2) == 0
  {
    var steps := [AsOption("-an", LINE_USES)];
    assert steps[..0] == [];
    assert Uses(steps) == [] + LINE_USES == LINE_USES;
    assert LINE_USES[..1] == [LINE_USES[0]] && [LINE_USES[0]][..0] == [];
  }

  lemma LineTokens()
    requires UsedTokens(LINE_USES) == ["3"]
    ensures Tokens([]) == [] && Tokens([AsOption("-an", LINE_USES)]) == ["-an", "3"]
    ensures Tokens([AsOption("-an", LINE_USES), AsPositional(Use(2, 3, ["file"]))]) == ["-an", "3", "file"]
  {
    hide UsedTokens;
    var first, second := AsOption("-an", LINE_USES), AsPositional(Use(2, 3, ["file"]));
    assert [first][..0] == [] && [first, second][..1] == [first];
    assert Tokens([first]) == [] + (["-an"] + ["3"]) == ["-an", "3"];
  }

  lemma FileFollows(parser: Parser, a: Argument, n: Argument, file: Argument)
    requires Small(parser, a, n, file)
    ensures parser.Follows(LINE, 3, [AsOption("-an", LINE_USES)], NOBODY, AsPositional(Use(2, 3, ["file"])))
  {
    FileIsUnused();
    assert LINE[3..4] == ["file"];
    file.TakesExactly(LINE, 3, 4, "-");
    hide TimesUsed, Uses, PositionalUses, Argument.Takes, DecimalLiteral;
    assert parser.Granted(LINE, LINE_USES, NOBODY, Use(2, 3, ["file"]));
  }

  lemma LineIsShared(parser: Parser, a: Argument, n: Argument, file: Argument)
    requires Small(parser, a, n, file)
    ensures parser.SharedOut(LINE, [AsOption("-an", LINE_USES), AsPositional(Use(2, 3, ["file"]))], NOBODY)
  {
    CompoundFollows(parser, a, n, file);
    FileFollows(parser, a, n, file);
    CompoundChained(parser, a, n, file);
    LineTokens();
    hide Parser.Follows, Parser.Chained, Small, Uses, PositionalUses, UsedTokens, Tokens;
    var first, second := AsOption("-an", LINE_USES), AsPositional(Use(2, 3, ["file"]));
    assert [first][..0] == [] && [first, second][..1] == [first];
    assert parser.Shared(LINE, [], NOBODY);
    assert parser.Shared(LINE, [first], NOBODY);
  }

  method NewSmall() returns (parser: Parser, a: Argument, n: Argument, file: Argument)
    ensures Small(parser, a, n, file) && parser.Valid() && parser.subcommands == {} && !n.hasDefault
    ensures parser.Ledger([], [[], [], []], NOBODY)
    ensures fresh(parser) && fresh(a) && fresh(n) && fresh(file)
  {
    a := new Argument(0, 0, false, false, false, (token: string) => true);
    n := new Argument(1, 1, false, false, false, (token: string) => true);
    file := new Argument(1, 1, false, false, false, (token: string) => true);
    parser := new Parser("-", [a, n, file], [2], map["-a" := 0, "-n" := 1], {});
  }

  lemma GivenByLine()
    ensures Uses([AsOption("-an", LINE_USES), AsPositional(Use(2, 3, ["file"]))]) == LINE_USES + [Use(2, 3, ["file"])]
    ensures var uses := LINE_USES + [Use(2, 3, ["file"])];
            TimesUsed(uses, 0) == 1 && GivenTo(uses, 1) == ["3"] && GivenTo(uses, 2) == ["file"]
  {
    var first, second := AsOption("-an", LINE_USES), AsPositional(Use(2, 3, ["file"]));
    FileIsUnused();
    assert [first, second][..1] == [first];
    var uses := LINE_USES + [Use(2, 3, ["file"])];
    assert uses[..2] == LINE_USES && LINE_USES[..1] == [LINE_USES[0]] && [LINE_USES[0]][..0] == [];
    assert TimesUsed([LINE_USES[0]], 0) == 1 && TimesUsed(LINE_USES, 0) == 1;
    GivenByTwo(LINE_USES[0], LINE_USES[1], 1);
    GivenByTwo(LINE_USES[0], LINE_USES[1], 2);
    assert GivenTo(LINE_USES, 1) == ["3"] && GivenTo(LINE_USES, 2) == [];
  }

  lemma GivenByTwo(u1: Use, u2: Use, a: nat)
    ensures GivenTo([u1, u2], a) == (if u1.arg == a then u1.values else []) + if u2.arg == a then u2.values else []
  {
    assert [u1, u2][..1] == [u1] && [u1][..0] == [];
    assert GivenTo([u1], a) == if u1.arg == a then u1.values else [];
  }

  lemma LineIsGiven(parser: Parser, a: Argument, n: Argument, file: Argument)
    requires Small(parser, a, n, file)
    requires parser.Ledger(Uses([AsOption("-an", LINE_USES), AsPositional(Use(2, 3, ["file"]))]), [[], [], []], NOBODY)
    ensures a.used && n.given == ["3"] && file.given == ["file"]
  {
    GivenByLine();
    hide GivenTo, TimesUsed, Uses;
    var uses := LINE_USES + [Use(2, 3, ["file"])];
    assert parser.arguments[0].Entered(GivenTo(uses, 0), TimesUsed(uses, 0), [], false);
    assert parser.arguments[1].Entered(GivenTo(uses, 1), TimesUsed(uses, 1), [], false);
    assert parser.arguments[2].Entered(GivenTo(uses, 2), TimesUsed(uses, 2), [], false);
  }

  /** A flag and an option in one token: the option takes what follows, and the rest is positional. */
  method CompoundIsParsed() returns (outcome: Verdict, flag: bool, number: seq<string>, files: seq<string>)
    ensures outcome == Parsed && flag && number == ["3"] && files == ["file"]
  {
    hide Parser.Ledger, Parser.Shared, Parser.SharedOut, Parser.Accounted, Parser.Stuck, Uses, Positional;
    var parser, a, n, file := NewSmall();
    LineIsShared(parser, a, n, file);
    ghost var steps, at, partly;
    outcome, steps, at, partly := parser.ParseArgsInternal(LINE, [[], [], []], NOBODY);
    parser.OneWay(LINE, steps, [AsOption("-an", LINE_USES), AsPositional(Use(2, 3, ["file"]))], NOBODY);
    LineIsGiven(parser, a, n, file);
    flag, number, files := a.used, n.given, file.given;
  }

  lemma OptionsAreNotPositional()
    ensures !Positional("-n", "-") && !Positional("-x", "-") && !Positional("--an", "-")
  {
    hide DecimalLiteral, FractionalPart;
    NumbersAreNoOptions();
    assert "-x"[1..] == "x" && "--an"[1..] == "-an";
    LiteralByFirst("x");
    LiteralByFirst("-an");
    NoPointAhead("x");
    NoPointAhead("-an");
  }

  lemma FirstIsStuck(parser: Parser, a: Argument, n: Argument, file: Argument, token: string, refusal: Refusal)
    requires Small(parser, a, n, file)
    requires (token == "-n" && refusal == TooFew && !n.hasDefault) || (token == "-x" && refusal == Unknown("-x"))
             || (token == "--an" && refusal == Unknown("--an"))
    ensures parser.Stuck(refusal, ["prog", token], [], NOBODY, [])
  {
    var tokens := ["prog", token];
    OptionsAreNotPositional();
    hide Positional;
    parser.NamesExactly(token);
    n.BarsExactly(tokens, 2, "-", false);
    var none: seq<Use> := [];
    assert TimesUsed(none, 1) == 0 && UsedTokens(none) == [] && none + none == none;
    hide Argument.Bars;
    assert parser.Chained(tokens, parser.Names(token), 2, [], NOBODY, []);
  }

  /** An option without its value, an unknown letter, and a name that is not known as a whole. */
  method RefusalsAreNamed() returns (short: Verdict, letter: Verdict, long: Verdict)
    ensures short == Refused(TooFew) && letter == Refused(Unknown("-x")) && long == Refused(Unknown("--an"))
  {
    short := Refuses("-n", TooFew);
    letter := Refuses("-x", Unknown("-x"));
    long := Refuses("--an", Unknown("--an"));
  }

  method Refuses(token: string, ghost refusal: Refusal) returns (outcome: Verdict)
    requires (token == "-n" && refusal == TooFew) || (token == "-x" && refusal == Unknown("-x")) || (token == "--an" && refusal == Unknown("--an"))
    ensures outcome == Refused(refusal)
  {
    hide Parser.Ledger, Parser.Shared, Parser.SharedOut, Parser.Stuck, Uses, Positional, Small;
    var parser, a, n, file := NewSmall();
    SmallHas(parser, a, n, file);
    var tokens := ["prog", token];
    FirstIsStuck(parser, a, n, file, token, refusal);
    ghost var steps, at, partly;
    outcome, steps, at, partly := parser.ParseArgsInternal(tokens, [[], [], []], NOBODY);
    NothingShared(parser, tokens);
    parser.NothingYet(tokens, NOBODY);
    ghost var none: seq<Move> := [];
    parser.StuckIsTheEnd(refusal, tokens, 1, none, NOBODY, []);
    if outcome.Refused? {
      parser.RefusedOnce(refusal, outcome.refusal, tokens, none, steps, NOBODY, [], partly);
    }
  }

  lemma SmallHas(parser: Parser, a: Argument, n: Argument, file: Argument)
    requires Small(parser, a, n, file)
    ensures |parser.arguments| == 3
  {
  }

  lemma NothingShared(parser: Parser, tokens: seq<string>)
    requires |parser.arguments| == 3
    ensures parser.Shared(tokens, [], NOBODY)
  {
  }
}

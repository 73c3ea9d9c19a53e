/**
 Telling negative numbers from options on a command line. The recogniser eats a string from the
 front, never looks back, and takes as many digits as it can; the grammar may split it anywhere.
 */
module Literals {
  import opened Options

  // ---------- The grammar ----------

  predicate IsDigit(c: char)
  {
    '0' <= c <= '9'
  }

  predicate IsExponentMark(c: char)
  {
    c == 'e' || c == 'E'
  }

  predicate DigitSequence(s: string)
  {
    s != "" && forall i :: 0 <= i < |s| ==> IsDigit(s[i])
  }

  predicate SignOpt(s: string)
  {
    s == "" || s == "+" || s == "-"
  }

  predicate PostE(s: string)
  {
    exists k :: 0 <= k <= |s| && SignOpt(s[..k]) && DigitSequence(s[k..])
  }

  predicate ExponentPart(s: string)
  {
    s != "" && IsExponentMark(s[0]) && PostE(s[1..])
  }

  predicate ExponentPartOpt(s: string)
  {
    s == "" || ExponentPart(s)
  }

  predicate PostDecimalPoint(s: string)
  {
    exists k :: 0 <= k <= |s| && DigitSequence(s[..k]) && ExponentPartOpt(s[k..])
  }

  predicate FractionalPart(s: string)
  {
    s != "" && s[0] == '.' && PostDecimalPoint(s[1..])
  }

  predicate BarePoint(s: string)
  {
    s != "" && s[0] == '.' && ExponentPartOpt(s[1..])
  }

  predicate Integer(s: string)
  {
    s == "0" || (s != "" && IsDigit(s[0]) && s[0] != '0' && (s[1..] == "" || DigitSequence(s[1..])))
  }

  predicate DecimalLiteral(s: string)
  {
    || Integer(s)
    || (exists k :: 0 <= k <= |s| && DigitSequence(s[..k]) && FractionalPart(s[k..]))
    || FractionalPart(s)
    || (exists k :: 0 <= k <= |s| && DigitSequence(s[..k]) && BarePoint(s[k..]))
    || (exists k :: 0 <= k <= |s| && DigitSequence(s[..k]) && ExponentPart(s[k..]))
  }

  predicate Positional(name: string, prefixChars: string)
  {
    || name == ""
    || name[0] !in prefixChars
    || name[1..] == ""
    || DecimalLiteral(name[1..])
  }

  // ---------- Taking as many digits as possible ----------

  /** What follows the leading digits. */
  function AfterDigits(s: string): (rest: string)
    ensures |rest| <= |s| && rest == s[|s| - |rest|..]
    ensures forall i :: 0 <= i < |s| - |rest| ==> IsDigit(s[i])
    ensures rest == "" || !IsDigit(rest[0])
  {
    if s == "" || !IsDigit(s[0]) then s else AfterDigits(s[1..])
  }

  predicate DigitAhead(s: string)
  {
    s != "" && IsDigit(s[0])
  }

  lemma AfterOneDigit(s: string)
    requires DigitAhead(s)
    ensures AfterDigits(s) == AfterDigits(s[1..])
  {
  }

  lemma NoDigitAhead(s: string)
    requires !DigitAhead(s)
    ensures AfterDigits(s) == s
  {
  }

  /** Digits followed by anything but a digit can only be all of the leading digits. */
  lemma {:induction false} SplitIsGreedy(s: string, k: nat)
    requires k <= |s| && (forall i :: 0 <= i < k ==> IsDigit(s[i])) && (k == |s| || !IsDigit(s[k]))
    ensures s[k..] == AfterDigits(s)
  {
    hide IsDigit, AfterDigits;
    if k == 0 {
      NoDigitAhead(s);
      assert s[0..] == s;
    } else {
      AfterOneDigit(s);
      var t := s[1..];
      assert forall i :: 0 <= i < k - 1 ==> t[i] == s[i + 1];
      assert k < |s| ==> t[k - 1] == s[k];
      SplitIsGreedy(t, k - 1);
      assert t[k - 1..] == s[k..];
    }
  }

  lemma AllDigits(s: string)
    ensures DigitSequence(s) <==> DigitAhead(s) && AfterDigits(s) == ""
  {
    if DigitSequence(s) {
      SplitIsGreedy(s, |s|);
    }
  }

  lemma IntegerByFirst(s: string)
    requires DigitAhead(s)
    ensures Integer(s) <==> s == "0" || (s[0] != '0' && AfterDigits(s) == "")
  {
    if s != "" && s[0] != '0' && s[1..] != "" {
      AllDigits(s[1..]);
      assert AfterDigits(s) == AfterDigits(s[1..]);
      if AfterDigits(s) == "" {
        assert s[1..][0] == s[1] && IsDigit(s[1]);
      }
    }
  }

  lemma GreedySplit(s: string)
    requires s != "" && IsDigit(s[0])
    ensures var k := |s| - |AfterDigits(s)|; DigitSequence(s[..k]) && s[k..] == AfterDigits(s)
  {
  }

  // ---------- The recogniser ----------

  /** The next character, if there is one. */
  function Lookahead(s: string): Option<char>
  {
    if s == "" then None else Some(s[0])
  }

  method ConsumeDigits(s: string) returns (rest: string)
    ensures rest == AfterDigits(s)
  {
    var i := 0;
    while i < |s| && IsDigit(s[i])
      invariant 0 <= i <= |s|
      invariant AfterDigits(s[i..]) == AfterDigits(s)
    {
      assert s[i..][1..] == s[i + 1..];
      i := i + 1;
    }
    rest := s[i..];
  }

  lemma PostEByFirst(s: string)
    ensures PostE(s) <==> DigitSequence(if s != "" && SignOpt(s[..1]) then s[1..] else s)
  {
    if PostE(s) {
      var k :| 0 <= k <= |s| && SignOpt(s[..k]) && DigitSequence(s[k..]);
      if k == 0 {
        assert s[0..] == s && IsDigit(s[0]);
      } else {
        assert |s[..k]| == 1;
      }
    }
    if s != "" && SignOpt(s[..1]) && DigitSequence(s[1..]) {
      assert PostE(s);
    } else if DigitSequence(s) {
      assert s[..0] == "" && s[0..] == s;
    }
  }

  method RecognisePostE(input: string) returns (accepted: bool)
    ensures accepted <==> PostE(input)
  {
    hide PostE, DigitSequence;
    PostEByFirst(input);
    var s := input;
    if Lookahead(s) == Some('-') || Lookahead(s) == Some('+') {
      s := s[1..];
    }
    if DigitAhead(s) {
      AllDigits(s);
      s := ConsumeDigits(s);
      accepted := s == "";
    } else {
      AllDigits(s);
      accepted := false;
    }
  }

  method RecogniseExponentPartOpt(input: string) returns (accepted: bool)
    ensures accepted <==> ExponentPartOpt(input)
  {
    match Lookahead(input)
    case None =>
      accepted := true;
    case Some(c) =>
      if IsExponentMark(c) {
        accepted := RecognisePostE(input[1..]);
      } else {
        accepted := false;
      }
  }

  lemma ExponentIsNoDigit(s: string, k: nat)
    requires k <= |s| && DigitSequence(s[..k]) && ExponentPartOpt(s[k..])
    ensures DigitAhead(s) && s[k..] == AfterDigits(s)
  {
    hide PostE;
    assert s[..k][0] == s[0];
    assert k < |s| ==> s[k..][0] == s[k] && !IsDigit(s[k]);
    assert forall i :: 0 <= i < k ==> s[..k][i] == s[i];
    SplitIsGreedy(s, k);
  }

  lemma PostDecimalPointIsGreedy(s: string)
    ensures PostDecimalPoint(s) <==> DigitAhead(s) && ExponentPartOpt(AfterDigits(s))
  {
    assert DigitAhead(s) ==> s != "" && IsDigit(s[0]);
    hide ExponentPartOpt, DigitSequence, DigitAhead;
    if PostDecimalPoint(s) {
      var k :| 0 <= k <= |s| && DigitSequence(s[..k]) && ExponentPartOpt(s[k..]);
      ExponentIsNoDigit(s, k);
    }
    if DigitAhead(s) {
      GreedySplit(s);
    }
  }

  method RecognisePostDecimalPoint(input: string) returns (accepted: bool)
    ensures accepted <==> PostDecimalPoint(input)
  {
    PostDecimalPointIsGreedy(input);
    if DigitAhead(input) {
      var s := ConsumeDigits(input);
      accepted := RecogniseExponentPartOpt(s);
    } else {
      accepted := false;
    }
  }

  /** What may follow an integer part. */
  predicate AfterInteger(s: string)
  {
    FractionalPart(s) || BarePoint(s) || ExponentPart(s)
  }

  method RecogniseIntegerPartConsumed(input: string) returns (accepted: bool)
    ensures accepted <==> AfterInteger(input)
  {
    match Lookahead(input)
    case None =>
      accepted := false;
    case Some(c) =>
      if c == '.' {
        var s := input[1..];
        PostDecimalPointIsGreedy(s);
        if DigitAhead(s) {
          accepted := RecognisePostDecimalPoint(s);
        } else {
          accepted := RecogniseExponentPartOpt(s);
        }
      } else if IsExponentMark(c) {
        accepted := RecognisePostE(input[1..]);
      } else {
        accepted := false;
      }
  }

  lemma IntegerPartIsGreedy(s: string, k: nat)
    requires k <= |s| && DigitSequence(s[..k]) && AfterInteger(s[k..])
    ensures DigitAhead(s) && s[k..] == AfterDigits(s)
  {
    hide PostDecimalPoint, PostE;
    assert s[..k][0] == s[0];
    assert s[k..] != "" && s[k..][0] == s[k] && !IsDigit(s[k]);
    assert forall i :: 0 <= i < k ==> s[..k][i] == s[i];
    SplitIsGreedy(s, k);
  }

  /** A literal that starts with a digit is an integer, or all its leading digits and what may follow them. */
  lemma LiteralByFirst(s: string)
    ensures DecimalLiteral(s) <==>
            if DigitAhead(s) then Integer(s) || AfterInteger(AfterDigits(s)) else FractionalPart(s)
  {
    hide PostDecimalPoint, BarePoint, ExponentPart, DigitSequence;
    forall k | 0 <= k <= |s| && DigitSequence(s[..k]) && AfterInteger(s[k..])
      ensures DigitAhead(s) && s[k..] == AfterDigits(s)
    {
      IntegerPartIsGreedy(s, k);
    }
    if DigitAhead(s) {
      GreedySplit(s);
      assert !FractionalPart(s);
    }
  }

  /** The recogniser accepts a string exactly if the grammar derives it. */
  method IsDecimalLiteral(input: string) returns (accepted: bool)
    ensures accepted <==> DecimalLiteral(input)
  {
    hide DecimalLiteral, AfterInteger, Integer, PostDecimalPoint;
    LiteralByFirst(input);
    if DigitAhead(input) {
      IntegerByFirst(input);
    }
    var s := input;
    match Lookahead(s)
    case None =>
      accepted := false;
    case Some(c) =>
      if c == '0' {
        s := s[1..];
        if s == "" {
          return true;
        }
        s := ConsumeDigits(s);
        accepted := RecogniseIntegerPartConsumed(s);
      } else if IsDigit(c) {
        s := ConsumeDigits(s);
        if s == "" {
          return true;
        }
        accepted := RecogniseIntegerPartConsumed(s);
      } else if c == '.' {
        s := s[1..];
        accepted := RecognisePostDecimalPoint(s);
      } else {
        accepted := false;
      }
  }

  method IsPositional(input: string, prefixChars: string) returns (positional: bool)
    ensures positional <==> Positional(input, prefixChars)
  {
    var name := input;
    match Lookahead(name)
    case None =>
      positional := true;
    case Some(first) =>
      if first in prefixChars {
        name := name[1..];
        if name == "" {
          return true;
        }
        positional := IsDecimalLiteral(name);
      } else {
        positional := true;
      }
  }

  // ---------- Literals are numbers as one writes them ----------

  predicate Digits(s: string)
  {
    forall i :: 0 <= i < |s| ==> s[i] in "0123456789"
  }

  /** Nothing, or a mark, perhaps a sign, and digits. */
  predicate WrittenExponent(s: string, sign: string, digits: string)
  {
    s == "" || ((s == "e" + sign + digits || s == "E" + sign + digits) && sign in ["", "+", "-"] && digits != "" && Digits(digits))
  }

  /** Digits in front of a point, behind it, or both, or without a point; an integer does not begin with a zero unless it is 0. */
  ghost predicate Written(s: string, whole: string, point: string, fraction: string, exponent: string)
  {
    && s == whole + point + fraction + exponent
    && Digits(whole) && Digits(fraction) && whole + fraction != ""
    && (point == "." || (point == "" && fraction == "" && (exponent != "" || whole == "0" || whole[0] != '0')))
    && exists sign, digits :: WrittenExponent(exponent, sign, digits)
  }

  lemma DigitsAreDigits(s: string)
    ensures DigitSequence(s) <==> s != "" && Digits(s)
  {
    assert forall c: char :: IsDigit(c) <==> c in "0123456789";
  }

  lemma ExponentIsWritten(s: string)
    requires ExponentPart(s)
    ensures exists sign, digits :: WrittenExponent(s, sign, digits)
  {
    var rest := s[1..];
    var k :| 0 <= k <= |rest| && SignOpt(rest[..k]) && DigitSequence(rest[k..]);
    var sign, digits := rest[..k], rest[k..];
    DigitsAreDigits(digits);
    hide DigitSequence, Digits, PostE;
    assert rest == sign + digits && s == [s[0]] + rest;
    assert [s[0]] + rest == [s[0]] + sign + digits;
    assert WrittenExponent(s, sign, digits);
  }

  lemma WrittenIsExponent(s: string, sign: string, digits: string)
    requires WrittenExponent(s, sign, digits)
    ensures ExponentPartOpt(s)
  {
    if s != "" {
      DigitsAreDigits(digits);
      hide DigitSequence, Digits;
      var rest := sign + digits;
      assert s[1..] == rest && rest[..|sign|] == sign && rest[|sign|..] == digits;
      assert PostE(rest);
    }
  }

  lemma ExponentsAreWritten(s: string)
    ensures ExponentPartOpt(s) <==> exists sign, digits :: WrittenExponent(s, sign, digits)
  {
    hide ExponentPart;
    if s == "" {
      assert WrittenExponent(s, "", "");
    } else {
      if ExponentPart(s) {
        ExponentIsWritten(s);
      }
      forall sign, digits | WrittenExponent(s, sign, digits)
        ensures ExponentPartOpt(s)
      {
        WrittenIsExponent(s, sign, digits);
      }
    }
  }

  lemma FractionsAreWritten(s: string)
    ensures FractionalPart(s) <==> exists fraction, exponent :: s == "." + fraction + exponent && fraction != "" && Digits(fraction) && ExponentPartOpt(exponent)
  {
    hide ExponentPartOpt, DigitSequence, Digits;
    if FractionalPart(s) {
      var k :| 0 <= k <= |s[1..]| && DigitSequence(s[1..][..k]) && ExponentPartOpt(s[1..][k..]);
      var fraction, exponent := s[1..][..k], s[1..][k..];
      DigitsAreDigits(fraction);
      assert s == "." + fraction + exponent;
    }
    forall fraction, exponent | s == "." + fraction + exponent && fraction != "" && Digits(fraction) && ExponentPartOpt(exponent)
      ensures FractionalPart(s)
    {
      DigitsAreDigits(fraction);
      assert s[1..] == fraction + exponent && s[1..][..|fraction|] == fraction && s[1..][|fraction|..] == exponent;
    }
  }

  /** What the grammar derives is exactly what is written so: a number, with or without a point and an exponent. */
  lemma LiteralsAreWrittenNumbers(s: string)
    ensures DecimalLiteral(s) <==> exists whole, point, fraction, exponent :: Written(s, whole, point, fraction, exponent)
  {
    if DecimalLiteral(s) {
      LiteralIsWritten(s);
    }
    forall whole, point, fraction, exponent | Written(s, whole, point, fraction, exponent)
      ensures DecimalLiteral(s)
    {
      WrittenIsLiteral(s, whole, point, fraction, exponent);
    }
  }

  lemma LiteralIsWritten(s: string)
    requires DecimalLiteral(s)
    ensures exists whole, point, fraction, exponent :: Written(s, whole, point, fraction, exponent)
  {
    hide Written, Integer, DigitSequence, FractionalPart, BarePoint, ExponentPart;
    if Integer(s) {
      IntegerIsWritten(s);
    } else if FractionalPart(s) {
      FractionIsWritten("", s);
      assert "" + s == s;
    } else {
      var k :| 0 <= k <= |s| && DigitSequence(s[..k]) && (FractionalPart(s[k..]) || BarePoint(s[k..]) || ExponentPart(s[k..]));
      DigitsAreDigits(s[..k]);
      assert s[..k] + s[k..] == s;
      if FractionalPart(s[k..]) {
        FractionIsWritten(s[..k], s[k..]);
      } else if BarePoint(s[k..]) {
        BarePointIsWritten(s[..k], s[k..]);
      } else {
        MarkIsWritten(s[..k], s[k..]);
      }
    }
  }

  lemma BarePointIsWritten(whole: string, s: string)
    requires whole != "" && Digits(whole) && BarePoint(s)
    ensures exists exponent :: Written(whole + s, whole, ".", "", exponent)
  {
    hide Digits, ExponentPartOpt;
    ExponentsAreWritten(s[1..]);
    NoDigits();
    assert "." + s[1..] == s && whole + "" == whole;
    assert whole + s == whole + "." + "" + s[1..];
    assert Written(whole + s, whole, ".", "", s[1..]);
  }

  lemma MarkIsWritten(whole: string, s: string)
    requires whole != "" && Digits(whole) && ExponentPart(s)
    ensures Written(whole + s, whole, "", "", s)
  {
    hide Digits, PostE;
    ExponentsAreWritten(s);
    NoDigits();
    assert whole + "" == whole;
    assert whole + s == whole + "" + "" + s;
  }

  lemma NoDigits()
    ensures Digits("")
  {
  }

  lemma IntegerIsWritten(s: string)
    requires Integer(s)
    ensures Written(s, s, "", "", "")
  {
    DigitsAreDigits(s);
    assert s + "" + "" + "" == s && WrittenExponent("", "", "");
    assert s != "0" && s[1..] != "" ==> forall i :: 1 <= i < |s| ==> s[i] == s[1..][i - 1];
  }

  lemma FractionIsWritten(whole: string, s: string)
    requires Digits(whole) && FractionalPart(s)
    ensures exists whole', point, fraction, exponent :: Written(whole + s, whole', point, fraction, exponent)
  {
    FractionsAreWritten(s);
    var fraction, exponent :| s == "." + fraction + exponent && fraction != "" && Digits(fraction) && ExponentPartOpt(exponent);
    ExponentsAreWritten(exponent);
    assert whole + s == whole + "." + fraction + exponent;
    assert Written(whole + s, whole, ".", fraction, exponent);
  }

  lemma WrittenIsLiteral(s: string, whole: string, point: string, fraction: string, exponent: string)
    requires Written(s, whole, point, fraction, exponent)
    ensures DecimalLiteral(s)
  {
    hide WrittenExponent;
    ExponentsAreWritten(exponent);
    DigitsAreDigits(whole);
    if point == "." && fraction != "" {
      var k, f := |whole|, "." + fraction + exponent;
      assert s[..k] == whole && s[k..] == f;
      FractionsAreWritten(f);
      assert whole == "" ==> s == f;
    } else if point == "." {
      var k := |whole|;
      assert s[..k] == whole && s[k..] == "." + exponent && s[k..][1..] == exponent;
      assert BarePoint(s[k..]);
    } else if exponent != "" {
      var k := |whole|;
      assert s[..k] == whole && s[k..] == exponent;
    } else {
      assert s == whole;
      if whole != "0" && s[1..] != "" {
        assert forall i :: 0 <= i < |s[1..]| ==> s[1..][i] == s[i + 1];
      }
    }
  }

  /** Negative numbers, a bare dash and everything without a dash are positional; options are not. */
  lemma NumbersAreNoOptions()
    ensures Positional("-42", "-") && Positional("-", "-") && Positional("", "-") && Positional("file", "-")
    ensures !Positional("-n", "-") && !Positional("--name", "-") && Positional("/n", "-") && !Positional("/n", "-/")
  {
    hide Written, FractionalPart, Integer, DigitSequence, DecimalLiteral;
    NumberIsWritten();
    LiteralByFirst("n");
    LiteralByFirst("-name");
    NoPointAhead("n");
    NoPointAhead("-name");
    assert "-42"[1..] == "42" && "-"[1..] == "" && "-n"[1..] == "n" && "--name"[1..] == "-name" && "/n"[1..] == "n";
  }

  lemma NumberIsWritten()
    ensures DecimalLiteral("42")
  {
    assert WrittenExponent("", "", "");
    assert Written("42", "42", "", "", "");
    WrittenIsLiteral("42", "42", "", "", "");
  }

  lemma NoPointAhead(s: string)
    requires s != "" && s[0] != '.'
    ensures !FractionalPart(s)
  {
  }
}

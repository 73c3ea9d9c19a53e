/** Sharing out the tokens of a command line among positional arguments and options. */
module TokenLoop {
  import opened Literals

  datatype Refusal = Duplicate | TooFew | NotConvertible | TooManyPositionals | Unknown(token: string)

  datatype Consumed = Upto(next: nat) | Rejected(refusal: Refusal)

  /** The argument that was given some tokens, where they start, and those tokens. */
  datatype Use = Use(arg: nat, start: nat, values: seq<string>)

  /** One turn of the loop: a positional argument, or a token naming options and what they were given. */
  datatype Move = AsPositional(use: Use) | AsOption(token: string, uses: seq<Use>)

  datatype Verdict = Parsed | Subcommand(name: string, rest: seq<string>) | Refused(refusal: Refusal)

  // ---------- Accounting ----------

  function UsedTokens(uses: seq<Use>): seq<string>
  {
    if uses == [] then [] else UsedTokens(uses[..|uses| - 1]) + uses[|uses| - 1].values
  }

  function UsesOf(s: Move): seq<Use>
  {
    if s.AsPositional? then [s.use] else s.uses
  }

  function StepTokens(s: Move): seq<string>
  {
    if s.AsPositional? then s.use.values else [s.token] + UsedTokens(s.uses)
  }

  /** All tokens that the steps account for, in order. */
  function Tokens(steps: seq<Move>): seq<string>
  {
    if steps == [] then [] else Tokens(steps[..|steps| - 1]) + StepTokens(steps[|steps| - 1])
  }

  /** The uses of all steps, in order. */
  function Uses(steps: seq<Move>): seq<Use>
  {
    if steps == [] then [] else Uses(steps[..|steps| - 1]) + UsesOf(steps[|steps| - 1])
  }

  /** What one argument was given, in order. */
  function GivenTo(uses: seq<Use>, a: nat): seq<string>
  {
    if uses == [] then []
    else GivenTo(uses[..|uses| - 1], a) + if uses[|uses| - 1].arg == a then uses[|uses| - 1].values else []
  }

  function TimesUsed(uses: seq<Use>, a: nat): nat
  {
    if uses == [] then 0
    else TimesUsed(uses[..|uses| - 1], a) + if uses[|uses| - 1].arg == a then 1 else 0
  }

  function PositionalUses(steps: seq<Move>): seq<nat>
  {
    if steps == [] then []
    else PositionalUses(steps[..|steps| - 1]) +
         if steps[|steps| - 1].AsPositional? then [steps[|steps| - 1].use.arg] else []
  }

  /** How many tokens the first `n` arguments were given altogether. */
  function TotalGiven(uses: seq<Use>, n: nat): nat
  {
    if n == 0 then 0 else TotalGiven(uses, n - 1) + |GivenTo(uses, n - 1)|
  }

  function OptionSteps(steps: seq<Move>): nat
  {
    if steps == [] then 0
    else OptionSteps(steps[..|steps| - 1]) + if steps[|steps| - 1].AsOption? then 1 else 0
  }

  lemma {:induction false} TotalOfOneMore(uses: seq<Use>, n: nat)
    requires uses != []
    ensures var u := uses[|uses| - 1];
            TotalGiven(uses, n) == TotalGiven(uses[..|uses| - 1], n) + if u.arg < n then |u.values| else 0
  {
    if n == 0 {
    } else {
      TotalOfOneMore(uses, n - 1);
    }
  }

  lemma {:induction false} NothingWasGiven(n: nat)
    ensures TotalGiven([], n) == 0
  {
    if n == 0 {
    } else {
      NothingWasGiven(n - 1);
    }
  }

  /** What the arguments were given altogether are the tokens in the uses. */
  lemma {:induction false} GivenAltogether(uses: seq<Use>, n: nat)
    requires forall u :: u in uses ==> u.arg < n
    ensures TotalGiven(uses, n) == |UsedTokens(uses)|
    decreases |uses|
  {
    if uses == [] {
      NothingWasGiven(n);
    } else {
      TotalOfOneMore(uses, n);
      GivenAltogether(uses[..|uses| - 1], n);
    }
  }

  lemma {:induction false} UsedTokensSplit(a: seq<Use>, b: seq<Use>)
    ensures UsedTokens(a + b) == UsedTokens(a) + UsedTokens(b)
    decreases |b|
  {
    if b == [] {
      assert a + b == a;
    } else {
      assert (a + b)[..|a + b| - 1] == a + b[..|b| - 1];
      UsedTokensSplit(a, b[..|b| - 1]);
    }
  }

  /** No token is lost and none is given twice: each is an option's name or counts for exactly one argument. */
  lemma {:induction false} EveryTokenCountsOnce(steps: seq<Move>, n: nat)
    requires forall u :: u in Uses(steps) ==> u.arg < n
    ensures |Tokens(steps)| == OptionSteps(steps) + TotalGiven(Uses(steps), n)
    decreases |steps|
  {
    GivenAltogether(Uses(steps), n);
    if steps == [] {
    } else {
      var front, last := steps[..|steps| - 1], steps[|steps| - 1];
      assert forall u :: u in Uses(front) ==> u in Uses(steps);
      EveryTokenCountsOnce(front, n);
      GivenAltogether(Uses(front), n);
      UsedTokensSplit(Uses(front), UsesOf(last));
    }
  }

  /** Where a greedy argument has to stop. */
  ghost predicate GreedyEnd(tokens: seq<string>, start: nat, next: nat, max: nat, optionalLike: bool,
      prefixChars: string)
  {
    && start <= next <= |tokens| && next <= start + max
    && (optionalLike || forall i :: start <= i < next ==> Positional(tokens[i], prefixChars))
    && (next == |tokens| || next == start + max || (!optionalLike && !Positional(tokens[next], prefixChars)))
  }

  class Argument {
    const min: nat
    const max: nat
    const repeatable: bool
    const optionalLike: bool
    const hasDefault: bool
    /** Which tokens its action can convert. */
    const accepts: string -> bool
    var used: bool
    var usedName: string
    /** The tokens that its action was applied to. */
    var given: seq<string>

    constructor (min: nat, max: nat, repeatable: bool, optionalLike: bool, hasDefault: bool, accepts: string -> bool)
      requires min <= max
      ensures this.min == min && this.max == max && this.repeatable == repeatable && this.optionalLike == optionalLike
      ensures this.hasDefault == hasDefault && this.accepts == accepts && !used && given == []
    {
      this.min, this.max, this.repeatable, this.optionalLike := min, max, repeatable, optionalLike;
      this.hasDefault, this.accepts := hasDefault, accepts;
      used, usedName, given := false, "", [];
    }

    /** It was given these tokens in so many uses, on top of what it was given before. */
    ghost predicate Entered(tokens: seq<string>, times: nat, given: seq<string>, used: bool)
      reads this
    {
      && this.given == given + tokens
      && (this.used <==> used || times > 0)
      && (!repeatable ==> times <= 1 && (used ==> times == 0))
    }

    /** What a use of this argument may look like. */
    predicate Fits(values: seq<string>, prefixChars: string)
    {
      && |values| <= max
      && (|values| >= min || max == 0 || (hasDefault && values == []))
      && (forall v :: v in values ==> accepts(v) && (optionalLike || Positional(v, prefixChars)))
    }

    /** Where a use that starts here has to stop: at once, if too little is left, and otherwise as late as it may. */
    ghost predicate StopsAt(tokens: seq<string>, start: nat, next: nat, prefixChars: string)
    {
      if max == 0 || |tokens| < start + min then next == start
      else GreedyEnd(tokens, start, next, max, optionalLike, prefixChars)
    }

    /** As many as it needs; a default value makes up for too little being left, but not for options in the way. */
    predicate Enough(tokens: seq<string>, start: nat, next: nat)
    {
      max == 0 || if |tokens| < start + min then hasDefault else start + min <= next
    }

    /** A use that starts here ends there, with enough tokens, all of which the argument accepts. */
    ghost predicate Takes(tokens: seq<string>, start: nat, next: nat, prefixChars: string)
    {
      && start <= next <= |tokens|
      && StopsAt(tokens, start, next, prefixChars) && Enough(tokens, start, next)
      && forall i :: start <= i < next ==> accepts(tokens[i])
    }

    predicate Spent(used: bool)
    {
      used && !repeatable
    }

    /** Why a use that starts here is refused. */
    ghost predicate Bars(refusal: Refusal, tokens: seq<string>, start: nat, prefixChars: string, used: bool)
    {
      match refusal
      case Duplicate => Spent(used)
      case TooFew =>
        && !Spent(used)
        && forall next: nat :: StopsAt(tokens, start, next, prefixChars) ==> !Enough(tokens, start, next)
      case NotConvertible =>
        && !Spent(used)
        && exists next: nat, i: nat :: StopsAt(tokens, start, next, prefixChars) && Enough(tokens, start, next)
             && start <= i < next <= |tokens| && !accepts(tokens[i])
      case _ => false
    }

    /** A flag takes nothing, and an argument with a default value takes nothing if too little is left. */
    lemma TakesNothing(tokens: seq<string>, start: nat, next: nat, prefixChars: string)
      requires start <= |tokens| && (max == 0 || (|tokens| < start + min && hasDefault))
      ensures Takes(tokens, start, next, prefixChars) <==> next == start
    {
    }

    /**
     Any other takes what is left up to its maximum, or up to the first option-like token, unless it takes
     these too; and that must be its minimum, and to its liking.
     */
    lemma TakesExactly(tokens: seq<string>, start: nat, next: nat, prefixChars: string)
      requires max > 0 && !(|tokens| < start + min && hasDefault)
      ensures Takes(tokens, start, next, prefixChars) <==>
              && start + min <= next <= start + max && start <= next <= |tokens|
              && (forall i :: start <= i < next ==> accepts(tokens[i]) && (optionalLike || Positional(tokens[i], prefixChars)))
              && (next < |tokens| && next < start + max ==> !optionalLike && !Positional(tokens[next], prefixChars))
    {
      hide Positional;
    }

    lemma StopsOnce(tokens: seq<string>, start: nat, n1: nat, n2: nat, prefixChars: string)
      requires StopsAt(tokens, start, n1, prefixChars) && StopsAt(tokens, start, n2, prefixChars)
      ensures n1 == n2
    {
      hide Positional;
    }

    /** No use is refused that could be granted. */
    lemma BarredTakesNothing(refusal: Refusal, tokens: seq<string>, start: nat, prefixChars: string, used: bool, next: nat)
      requires Bars(refusal, tokens, start, prefixChars, used)
      ensures Spent(used) || !Takes(tokens, start, next, prefixChars)
    {
      if refusal.NotConvertible? && Takes(tokens, start, next, prefixChars) {
        var end: nat, i: nat :| StopsAt(tokens, start, end, prefixChars) && Enough(tokens, start, end)
          && start <= i < end <= |tokens| && !accepts(tokens[i]);
        StopsOnce(tokens, start, next, end, prefixChars);
      }
    }

    lemma StopsSomewhere(tokens: seq<string>, start: nat, limit: nat, prefixChars: string) returns (next: nat)
      requires start <= limit <= |tokens| && (limit == start + max || (limit == |tokens| && limit < start + max))
      ensures GreedyEnd(tokens, start, next, max, optionalLike, prefixChars)
    {
      hide Positional;
      next := start;
      while next < limit && (optionalLike || Positional(tokens[next], prefixChars))
        invariant start <= next <= limit
        invariant optionalLike || forall i :: start <= i < next ==> Positional(tokens[i], prefixChars)
      {
        next := next + 1;
      }
    }

    /**
     What is refused, and why: a second use of an argument that may not be repeated; too few tokens left, without a
     default value; an option-like token among the first `min`; or one that the argument does not accept.
     */
    lemma BarsExactly(tokens: seq<string>, start: nat, prefixChars: string, used: bool)
      requires start <= |tokens| && min <= max
      ensures Bars(Duplicate, tokens, start, prefixChars, used) <==> used && !repeatable
      ensures Bars(TooFew, tokens, start, prefixChars, used) <==>
              && (repeatable || !used) && max > 0
              && if |tokens| < start + min then !hasDefault
                 else !optionalLike && exists i :: start <= i < start + min && !Positional(tokens[i], prefixChars)
      ensures Bars(NotConvertible, tokens, start, prefixChars, used) ==>
              (repeatable || !used) && max > 0 && exists i :: start <= i < |tokens| && i < start + max && !accepts(tokens[i])
    {
      hide Positional;
      if max > 0 && start + min <= |tokens| {
        var next := StopsSomewhere(tokens, start, if |tokens| < start + max then |tokens| else start + max, prefixChars);
        assert StopsAt(tokens, start, next, prefixChars);
        forall other: nat | StopsAt(tokens, start, other, prefixChars)
          ensures other == next
        {
          StopsOnce(tokens, start, other, next, prefixChars);
        }
        if next < start + min {
          assert !Positional(tokens[next], prefixChars);
        }
      } else {
        assert StopsAt(tokens, start, start, prefixChars);
      }
    }

    /** Takes tokens as long as they look like values, at most `max` of them; or says what is in the way. */
    method Consume(tokens: seq<string>, start: nat, name: string, prefixChars: string) returns (r: Consumed)
      requires start <= |tokens| && min <= max
      modifies this
      ensures r.Upto? ==> !Spent(old(used)) && Takes(tokens, start, r.next, prefixChars)
      ensures r.Upto? ==> start <= r.next <= |tokens| && used && usedName == name
      ensures r.Upto? ==> Fits(tokens[start..r.next], prefixChars) && given == old(given) + tokens[start..r.next]
      ensures r.Rejected? ==> Bars(r.refusal, tokens, start, prefixChars, old(used))
    {
      if !repeatable && used {
        return Rejected(Duplicate);
      }
      used, usedName := true, name;
      if max == 0 {
        assert tokens[start..start] == [];
        return Upto(start);
      }
      if |tokens| - start < min {
        assert tokens[start..start] == [];
        return if hasDefault then Upto(start) else Rejected(TooFew);
      }
      var end := if max < |tokens| - start then start + max else |tokens|;
      if !optionalLike {
        end := FindOptional(tokens, start, end, prefixChars);
        if end - start < min {
          return Rejected(TooFew);
        }
      }
      hide Positional;
      assert StopsAt(tokens, start, end, prefixChars) && Enough(tokens, start, end);
      r := Apply(tokens, start, end);
    }

    /** Applies the action to one token after another. */
    method Apply(tokens: seq<string>, start: nat, end: nat) returns (r: Consumed)
      requires start <= end <= |tokens|
      modifies this`given
      ensures r == if forall i :: start <= i < end ==> accepts(tokens[i]) then Upto(end) else Rejected(NotConvertible)
      ensures r.Upto? ==> given == old(given) + tokens[start..end]
    {
      for i := start to end
        invariant forall j :: start <= j < i ==> accepts(tokens[j])
        invariant given == old(given) + tokens[start..i]
      {
        if !accepts(tokens[i]) {
          return Rejected(NotConvertible);
        }
        given := given + [tokens[i]];
        assert tokens[start..i + 1] == tokens[start..i] + [tokens[i]];
      }
      r := Upto(end);
    }
  }

  method FindOptional(tokens: seq<string>, start: nat, limit: nat, prefixChars: string) returns (end: nat)
    requires start <= limit <= |tokens|
    ensures start <= end <= limit && forall i :: start <= i < end ==> Positional(tokens[i], prefixChars)
    ensures end < limit ==> !Positional(tokens[end], prefixChars)
  {
    end := start;
    while end < limit
      invariant start <= end <= limit && forall i :: start <= i < end ==> Positional(tokens[i], prefixChars)
    {
      var positional := IsPositional(tokens[end], prefixChars);
      if !positional {
        return;
      }
      end := end + 1;
    }
  }

  /** The options that a run of letters names. */
  function Letters(s: string): (names: seq<string>)
    ensures |names| == |s| && forall j :: 0 <= j < |s| ==> names[j] == ['-', s[j]]
  {
    if s == "" then [] else Letters(s[..|s| - 1]) + [['-', s[|s| - 1]]]
  }

  class Parser {
    const prefixChars: string
    const arguments: seq<Argument>
    const positionals: seq<nat>
    const argumentMap: map<string, nat>
    const subcommands: set<string>
    var isParsed: bool

    predicate Valid()
    {
      && (forall a, b :: 0 <= a < b < |arguments| ==> arguments[a] != arguments[b])
      && (forall a :: 0 <= a < |arguments| ==> arguments[a].min <= arguments[a].max)
      && (forall i :: 0 <= i < |positionals| ==> positionals[i] < |arguments|)
      && (forall name :: name in argumentMap ==> argumentMap[name] < |arguments|)
    }

    constructor (prefixChars: string, arguments: seq<Argument>, positionals: seq<nat>, argumentMap: map<string, nat>,
        subcommands: set<string>)
      ensures this.prefixChars == prefixChars && this.arguments == arguments && this.positionals == positionals
      ensures this.argumentMap == argumentMap && this.subcommands == subcommands && !isParsed
    {
      this.prefixChars, this.arguments, this.positionals := prefixChars, arguments, positionals;
      this.argumentMap, this.subcommands, isParsed := argumentMap, subcommands, false;
    }

    /** The options that a token names. */
    function Names(token: string): seq<string>
    {
      if token in argumentMap then [token] else if token == "" then [] else Letters(token[1..])
    }

    /** A token that is several options at once. */
    predicate Compound(token: string)
    {
      |token| > 1 && token[0] in prefixChars && token[1] !in prefixChars
    }

    lemma NamesExactly(token: string)
      ensures token in argumentMap ==> Names(token) == [token]
      ensures token !in argumentMap && token != "" ==>
                |Names(token)| == |token| - 1 && forall j :: 0 <= j < |token| - 1 ==> Names(token)[j] == ['-', token[j + 1]]
    {
      if token !in argumentMap && token != "" {
        assert forall j :: 0 <= j < |token| - 1 ==> token[1..][j] == token[j + 1];
      }
    }

    // ---------- What it means to share out the tokens ----------

    predicate UsedBefore(a: nat, uses: seq<Use>, used: seq<bool>)
      requires |used| == |arguments|
    {
      a < |arguments| && (used[a] || TimesUsed(uses, a) > 0)
    }

    /** This use, after those uses, is one that its argument may have: these very tokens, no fewer and no more. */
    ghost predicate Granted(tokens: seq<string>, uses: seq<Use>, used: seq<bool>, u: Use)
      requires |used| == |arguments|
    {
      && u.arg < |arguments| && u.start + |u.values| <= |tokens|
      && u.values == tokens[u.start..u.start + |u.values|]
      && !arguments[u.arg].Spent(UsedBefore(u.arg, uses, used))
      && arguments[u.arg].Takes(tokens, u.start, u.start + |u.values|, prefixChars)
    }

    /** After those uses, argument `a` may not have a use that starts here, for this reason. */
    ghost predicate Barred(refusal: Refusal, tokens: seq<string>, a: nat, start: nat, uses: seq<Use>, used: seq<bool>)
      requires |used| == |arguments|
    {
      a < |arguments| && arguments[a].Bars(refusal, tokens, start, prefixChars, UsedBefore(a, uses, used))
    }

    /** The first of these options have taken what follows `start`, one after another. */
    ghost predicate Chained(tokens: seq<string>, names: seq<string>, start: nat, before: seq<Use>, used: seq<bool>,
        uses: seq<Use>)
      requires |used| == |arguments|
    {
      && |uses| <= |names|
      && forall j: nat :: j < |uses| ==> LinkAt(tokens, names, start, before, used, uses, j)
    }

    ghost predicate LinkAt(tokens: seq<string>, names: seq<string>, start: nat, before: seq<Use>, used: seq<bool>,
        uses: seq<Use>, j: nat)
      requires |used| == |arguments| && j < |uses| <= |names|
    {
      Link(tokens, names[j], start + |UsedTokens(uses[..j])|, before + uses[..j], used, uses[j])
    }

    ghost predicate Link(tokens: seq<string>, name: string, start: nat, before: seq<Use>, used: seq<bool>, u: Use)
      requires |used| == |arguments|
    {
      name in argumentMap && u.arg == argumentMap[name] && u.start == start && Granted(tokens, before, used, u)
    }

    /** With everything before `it` shared out in these steps, this is a step that may come next. */
    ghost predicate Follows(tokens: seq<string>, it: nat, steps: seq<Move>, used: seq<bool>, s: Move)
      requires |used| == |arguments|
    {
      && it < |tokens|
      && match s
         case AsPositional(u) =>
           && Positional(tokens[it], prefixChars)
           && |PositionalUses(steps)| < |positionals| && u.arg == positionals[|PositionalUses(steps)|]
           && u.start == it && Granted(tokens, Uses(steps), used, u)
         case AsOption(token, uses) =>
           && token == tokens[it] && !Positional(token, prefixChars) && (token in argumentMap || Compound(token))
           && |uses| == |Names(token)| && Chained(tokens, Names(token), it + 1, Uses(steps), used, uses)
    }

    /**
     All tokens after the first, up to as many as the steps account for, are shared out as they may be: positional
     tokens start the uses of the positional arguments, in order, and option tokens those of the options they
     name; every use ends as late as it may, is long enough, and has only tokens that its argument accepts;
     and no argument is used twice that may not be.
     */
    ghost predicate Shared(tokens: seq<string>, steps: seq<Move>, used: seq<bool>)
      requires |used| == |arguments|
      decreases |steps|
    {
      steps == []
      || var front := steps[..|steps| - 1];
         Shared(tokens, front, used) && Follows(tokens, 1 + |Tokens(front)|, front, used, steps[|steps| - 1])
    }

    /** Why no step may come next. */
    ghost predicate Stuck(refusal: Refusal, tokens: seq<string>, steps: seq<Move>, used: seq<bool>, partly: seq<Use>)
      requires |used| == |arguments|
    {
      var it := 1 + |Tokens(steps)|;
      && it < |tokens|
      && var token, position := tokens[it], |PositionalUses(steps)|;
         if Positional(token, prefixChars) then
           if position < |positionals| then Barred(refusal, tokens, positionals[position], it, Uses(steps), used)
           else refusal == TooManyPositionals && token !in subcommands
         else if token !in argumentMap && !Compound(token) then
           refusal == Unknown(token)
         else
           StuckInside(refusal, tokens, it, Uses(steps), used, partly)
    }

    /** The option that the token at `it` names next is not known, or may not take what follows. */
    ghost predicate StuckInside(refusal: Refusal, tokens: seq<string>, it: nat, before: seq<Use>, used: seq<bool>,
        partly: seq<Use>)
      requires |used| == |arguments| && it < |tokens|
    {
      var names := Names(tokens[it]);
      && |partly| < |names| && Chained(tokens, names, it + 1, before, used, partly)
      && if names[|partly|] in argumentMap then
           Barred(refusal, tokens, argumentMap[names[|partly|]], it + 1 + |UsedTokens(partly)|, before + partly, used)
         else
           refusal == Unknown(tokens[it])
    }

    // ---------- There is only one way to share them out ----------

    lemma GrantedOnce(tokens: seq<string>, uses: seq<Use>, used: seq<bool>, u1: Use, u2: Use)
      requires |used| == |arguments| && Granted(tokens, uses, used, u1) && Granted(tokens, uses, used, u2)
      requires u1.arg == u2.arg && u1.start == u2.start
      ensures u1 == u2
    {
      arguments[u1.arg].StopsOnce(tokens, u1.start, u1.start + |u1.values|, u2.start + |u2.values|, prefixChars);
    }

    lemma BarredGrantsNothing(refusal: Refusal, tokens: seq<string>, a: nat, start: nat, uses: seq<Use>, used: seq<bool>,
        u: Use)
      requires |used| == |arguments| && Barred(refusal, tokens, a, start, uses, used) && u.arg == a && u.start == start
      ensures !Granted(tokens, uses, used, u)
    {
      arguments[a].BarredTakesNothing(refusal, tokens, start, prefixChars, UsedBefore(a, uses, used), start + |u.values|);
    }

    lemma {:induction false} ChainedOnce(tokens: seq<string>, names: seq<string>, start: nat, before: seq<Use>,
        used: seq<bool>, a: seq<Use>, b: seq<Use>, n: nat)
      requires |used| == |arguments| && n <= |a| && n <= |b|
      requires Chained(tokens, names, start, before, used, a) && Chained(tokens, names, start, before, used, b)
      ensures a[..n] == b[..n]
    {
      hide UsedTokens, Granted;
      if n > 0 {
        ChainedOnce(tokens, names, start, before, used, a, b, n - 1);
        assert LinkAt(tokens, names, start, before, used, a, n - 1) && LinkAt(tokens, names, start, before, used, b, n - 1);
        GrantedOnce(tokens, before + a[..n - 1], used, a[n - 1], b[n - 1]);
        assert a[..n] == a[..n - 1] + [a[n - 1]] && b[..n] == b[..n - 1] + [b[n - 1]];
      }
    }

    lemma FollowsOnce(tokens: seq<string>, it: nat, steps: seq<Move>, used: seq<bool>, s1: Move, s2: Move)
      requires |used| == |arguments| && Follows(tokens, it, steps, used, s1) && Follows(tokens, it, steps, used, s2)
      ensures s1 == s2
    {
      hide Chained, Granted, Uses, PositionalUses, Positional;
      match s1 {
        case AsPositional(u1) =>
          GrantedOnce(tokens, Uses(steps), used, u1, s2.use);
        case AsOption(token, uses1) =>
          ChainedOnce(tokens, Names(token), it + 1, Uses(steps), used, uses1, s2.uses, |uses1|);
          assert uses1[..|uses1|] == uses1 && s2.uses[..|uses1|] == s2.uses;
      }
    }

    lemma StuckFollowsNothing(refusal: Refusal, tokens: seq<string>, steps: seq<Move>, used: seq<bool>, partly: seq<Use>,
        s: Move)
      requires |used| == |arguments| && Stuck(refusal, tokens, steps, used, partly)
      ensures !Follows(tokens, 1 + |Tokens(steps)|, steps, used, s)
    {
      hide Chained, Granted, Barred, Uses, PositionalUses, Positional, Tokens;
      var it := 1 + |Tokens(steps)|;
      if Follows(tokens, it, steps, used, s) {
        match s {
          case AsPositional(u) =>
            BarredGrantsNothing(refusal, tokens, u.arg, it, Uses(steps), used, u);
          case AsOption(token, uses) =>
            StuckMeansUnchained(refusal, tokens, it, Uses(steps), used, partly, uses);
        }
      }
    }

    lemma StuckMeansUnchained(refusal: Refusal, tokens: seq<string>, it: nat, before: seq<Use>, used: seq<bool>,
        partly: seq<Use>, uses: seq<Use>)
      requires |used| == |arguments| && it < |tokens| && StuckInside(refusal, tokens, it, before, used, partly)
      requires |partly| < |uses|
      ensures !Chained(tokens, Names(tokens[it]), it + 1, before, used, uses)
    {
      hide Granted, Barred, UsedTokens, Names;
      var names, n := Names(tokens[it]), |partly|;
      if Chained(tokens, names, it + 1, before, used, uses) {
        ChainedOnce(tokens, names, it + 1, before, used, partly, uses, n);
        assert partly[..n] == partly;
        assert LinkAt(tokens, names, it + 1, before, used, uses, n);
        BarredGrantsNothing(refusal, tokens, argumentMap[names[n]], it + 1 + |UsedTokens(partly)|, before + partly, used, uses[n]);
      }
    }

    lemma {:induction false} SharedPrefix(tokens: seq<string>, steps: seq<Move>, used: seq<bool>, n: nat)
      requires |used| == |arguments| && Shared(tokens, steps, used) && n <= |steps|
      ensures Shared(tokens, steps[..n], used)
      ensures n < |steps| ==> Follows(tokens, 1 + |Tokens(steps[..n])|, steps[..n], used, steps[n])
      decreases |steps|
    {
      hide Follows, Tokens;
      if n < |steps| {
        SharedPrefix(tokens, steps[..|steps| - 1], used, n);
        assert steps[..|steps| - 1][..n] == steps[..n];
      } else {
        assert steps[..n] == steps;
      }
    }

    /** Of two ways to share out the tokens, one begins as the other. */
    lemma {:induction false} SharedOnce(tokens: seq<string>, a: seq<Move>, b: seq<Move>, used: seq<bool>, n: nat)
      requires |used| == |arguments| && Shared(tokens, a, used) && Shared(tokens, b, used) && n <= |a| && n <= |b|
      ensures a[..n] == b[..n]
    {
      hide Follows, Tokens, Shared;
      if n > 0 {
        SharedOnce(tokens, a, b, used, n - 1);
        SharedPrefix(tokens, a, used, n - 1);
        SharedPrefix(tokens, b, used, n - 1);
        FollowsOnce(tokens, 1 + |Tokens(a[..n - 1])|, a[..n - 1], used, a[n - 1], b[n - 1]);
        assert a[..n] == a[..n - 1] + [a[n - 1]] && b[..n] == b[..n - 1] + [b[n - 1]];
      }
    }

    /** All tokens are shared out. */
    ghost predicate SharedOut(tokens: seq<string>, steps: seq<Move>, used: seq<bool>)
      requires |used| == |arguments|
    {
      Shared(tokens, steps, used) && 1 + |Tokens(steps)| == |tokens|
    }

    /** There is at most one way to share out all tokens. */
    lemma OneWay(tokens: seq<string>, a: seq<Move>, b: seq<Move>, used: seq<bool>)
      requires |used| == |arguments| && SharedOut(tokens, a, used) && SharedOut(tokens, b, used)
      ensures a == b
    {
      hide Follows, Tokens, Shared;
      if |a| <= |b| {
        ShorterIsBeginning(tokens, a, b, used);
        if |a| < |b| {
          GoesOn(tokens, b, used, |a|);
        }
      } else {
        ShorterIsBeginning(tokens, b, a, used);
        GoesOn(tokens, a, used, |b|);
      }
    }

    ghost predicate NothingFollows(tokens: seq<string>, it: nat, steps: seq<Move>, used: seq<bool>)
      requires |used| == |arguments|
    {
      forall s :: !Follows(tokens, it, steps, used, s)
    }

    lemma FollowsInside(tokens: seq<string>, it: nat, steps: seq<Move>, used: seq<bool>, s: Move)
      requires |used| == |arguments| && Follows(tokens, it, steps, used, s)
      ensures it < |tokens|
    {
    }

    lemma GoesOn(tokens: seq<string>, b: seq<Move>, used: seq<bool>, n: nat)
      requires |used| == |arguments| && Shared(tokens, b, used) && n < |b|
      ensures Follows(tokens, 1 + |Tokens(b[..n])|, b[..n], used, b[n]) && 1 + |Tokens(b[..n])| < |tokens|
    {
      hide Tokens, Shared, Follows;
      SharedPrefix(tokens, b, used, n);
      FollowsInside(tokens, 1 + |Tokens(b[..n])|, b[..n], used, b[n]);
    }

    /** The shorter of two ways to share out tokens is the beginning of the longer. */
    lemma ShorterIsBeginning(tokens: seq<string>, a: seq<Move>, b: seq<Move>, used: seq<bool>)
      requires |used| == |arguments| && Shared(tokens, a, used) && Shared(tokens, b, used) && |a| <= |b|
      ensures a == b[..|a|]
    {
      hide *;
      SharedOnce(tokens, a, b, used, |a|);
      assert a[..|a|] == a;
    }

    /** If nothing may come next after some steps, before all tokens are shared out, there is no way to share them out. */
    lemma NoOtherWay(tokens: seq<string>, a: seq<Move>, b: seq<Move>, used: seq<bool>)
      requires |used| == |arguments| && Shared(tokens, a, used) && 1 + |Tokens(a)| < |tokens|
      requires NothingFollows(tokens, 1 + |Tokens(a)|, a, used)
      ensures !SharedOut(tokens, b, used)
    {
      hide Follows, Tokens, Shared;
      if Shared(tokens, b, used) {
        if |a| < |b| {
          ShorterIsBeginning(tokens, a, b, used);
          GoesOn(tokens, b, used, |a|);
        } else {
          ShorterIsBeginning(tokens, b, a, used);
          if |b| < |a| {
            GoesOn(tokens, a, used, |b|);
          } else {
            assert a[..|a|] == a;
          }
        }
      }
    }

    // ---------- There is only one reason for a refusal ----------

    lemma BarredOnce(r1: Refusal, r2: Refusal, tokens: seq<string>, a: nat, start: nat, uses: seq<Use>, used: seq<bool>)
      requires |used| == |arguments|
      requires Barred(r1, tokens, a, start, uses, used) && Barred(r2, tokens, a, start, uses, used)
      ensures r1 == r2
    {
    }

    lemma StuckInsideOnce(r1: Refusal, r2: Refusal, tokens: seq<string>, it: nat, before: seq<Use>, used: seq<bool>,
        p1: seq<Use>, p2: seq<Use>)
      requires |used| == |arguments| && it < |tokens|
      requires StuckInside(r1, tokens, it, before, used, p1) && StuckInside(r2, tokens, it, before, used, p2)
      ensures r1 == r2
    {
      hide Chained, Barred, Granted, Names, UsedTokens;
      if |p1| < |p2| {
        StuckMeansUnchained(r1, tokens, it, before, used, p1, p2);
      } else if |p2| < |p1| {
        StuckMeansUnchained(r2, tokens, it, before, used, p2, p1);
      } else {
        var names := Names(tokens[it]);
        ChainedOnce(tokens, names, it + 1, before, used, p1, p2, |p1|);
        assert p1[..|p1|] == p1 && p2[..|p1|] == p2;
        if names[|p1|] in argumentMap {
          BarredOnce(r1, r2, tokens, argumentMap[names[|p1|]], it + 1 + |UsedTokens(p1)|, before + p1, used);
        }
      }
    }

    lemma StuckSameOnce(r1: Refusal, r2: Refusal, tokens: seq<string>, steps: seq<Move>, used: seq<bool>, p1: seq<Use>,
        p2: seq<Use>)
      requires |used| == |arguments|
      requires Stuck(r1, tokens, steps, used, p1) && Stuck(r2, tokens, steps, used, p2)
      ensures r1 == r2
    {
      hide Chained, Barred, StuckInside, Tokens, Uses, PositionalUses, Positional, Names, Compound;
      var it := 1 + |Tokens(steps)|;
      if Positional(tokens[it], prefixChars) {
        if |PositionalUses(steps)| < |positionals| {
          BarredOnce(r1, r2, tokens, positionals[|PositionalUses(steps)|], it, Uses(steps), used);
        }
      } else if tokens[it] in argumentMap || Compound(tokens[it]) {
        StuckInsideOnce(r1, r2, tokens, it, Uses(steps), used, p1, p2);
      }
    }

    /** A command line is refused at one place, and for one reason. */
    lemma RefusedOnce(r1: Refusal, r2: Refusal, tokens: seq<string>, a: seq<Move>, b: seq<Move>, used: seq<bool>,
        p1: seq<Use>, p2: seq<Use>)
      requires |used| == |arguments| && Shared(tokens, a, used) && Shared(tokens, b, used)
      requires Stuck(r1, tokens, a, used, p1) && Stuck(r2, tokens, b, used, p2)
      ensures a == b && r1 == r2
    {
      hide Shared, Stuck, Follows, Tokens;
      if |a| < |b| {
        ShorterIsBeginning(tokens, a, b, used);
        GoesOn(tokens, b, used, |a|);
        StuckFollowsNothing(r1, tokens, a, used, p1, b[|a|]);
      } else if |b| < |a| {
        ShorterIsBeginning(tokens, b, a, used);
        GoesOn(tokens, a, used, |b|);
        StuckFollowsNothing(r2, tokens, b, used, p2, a[|b|]);
      } else {
        ShorterIsBeginning(tokens, a, b, used);
        assert b[..|a|] == b;
        StuckSameOnce(r1, r2, tokens, a, used, p1, p2);
      }
    }

    /** Every argument was given what these uses say, in this order, as often as it may be used. */
    ghost predicate Ledger(uses: seq<Use>, given: seq<seq<string>>, used: seq<bool>)
      requires |given| == |used| == |arguments|
      reads arguments
    {
      && (forall u :: u in uses ==> u.arg < |arguments| && arguments[u.arg].Fits(u.values, prefixChars))
      && (forall a :: 0 <= a < |arguments| ==> arguments[a].Entered(GivenTo(uses, a), TimesUsed(uses, a), given[a], used[a]))
    }

    lemma LedgerGrows(uses: seq<Use>, u: Use)
      ensures forall a :: GivenTo(uses + [u], a) == GivenTo(uses, a) + if u.arg == a then u.values else []
      ensures forall a :: TimesUsed(uses + [u], a) == TimesUsed(uses, a) + if u.arg == a then 1 else 0
    {
      assert (uses + [u])[..|uses|] == uses;
    }

    /** Lets one argument take tokens, and enters that in the ledger; or says why the argument may not take them. */
    method Give(a: nat, tokens: seq<string>, start: nat, name: string, ghost uses: seq<Use>,
        ghost given: seq<seq<string>>, ghost used: seq<bool>)
      returns (r: Consumed)
      requires Valid() && a < |arguments| && start <= |tokens|
      requires |given| == |used| == |arguments| && Ledger(uses, given, used)
      modifies arguments[a]
      ensures r.Upto? ==> start <= r.next <= |tokens| && Ledger(uses + [Use(a, start, tokens[start..r.next])], given, used)
      ensures r.Upto? ==> Granted(tokens, uses, used, Use(a, start, tokens[start..r.next]))
      ensures r.Rejected? ==> Barred(r.refusal, tokens, a, start, uses, used)
    {
      hide Positional, Argument.Fits, Argument.Takes, Argument.Bars, GivenTo, TimesUsed;
      assert arguments[a].Entered(GivenTo(uses, a), TimesUsed(uses, a), given[a], used[a]);
      assert arguments[a].used <==> UsedBefore(a, uses, used);
      r := arguments[a].Consume(tokens, start, name, prefixChars);
      if r.Upto? {
        LedgerGrows(uses, Use(a, start, tokens[start..r.next]));
      }
    }

    lemma NoUses()
      ensures UsedTokens([]) == []
    {
    }

    lemma UsedGrows(uses: seq<Use>, u: Use)
      ensures UsedTokens(uses + [u]) == UsedTokens(uses) + u.values
    {
      assert (uses + [u])[..|uses|] == uses;
    }

    lemma ChainGrows(tokens: seq<string>, names: seq<string>, start: nat, before: seq<Use>, used: seq<bool>,
        uses: seq<Use>, u: Use)
      requires |used| == |arguments| && Chained(tokens, names, start, before, used, uses) && |uses| < |names|
      requires Link(tokens, names[|uses|], start + |UsedTokens(uses)|, before + uses, used, u)
      ensures Chained(tokens, names, start, before, used, uses + [u])
    {
      hide Link, UsedTokens;
      var more := uses + [u];
      assert more[..|uses|] == uses;
      forall j: nat | j < |more|
        ensures LinkAt(tokens, names, start, before, used, more, j)
      {
        if j < |uses| {
          assert LinkAt(tokens, names, start, before, used, uses, j);
          assert more[..j] == uses[..j];
        }
      }
    }

    /** The named options take what follows `start`, one after another, until one is not known or may not. */
    method ParseLetters(token: string, tokens: seq<string>, start: nat, ghost before: seq<Use>,
        ghost given: seq<seq<string>>, ghost used: seq<bool>)
      returns (r: Consumed, ghost uses: seq<Use>)
      requires Valid() && token != "" && start <= |tokens|
      requires |given| == |used| == |arguments| && Ledger(before, given, used)
      modifies arguments
      ensures Chained(tokens, Letters(token[1..]), start, before, used, uses)
      ensures r.Upto? ==> start <= r.next <= |tokens| && UsedTokens(uses) == tokens[start..r.next] && Ledger(before + uses, given, used)
      ensures r.Upto? ==> |uses| == |Letters(token[1..])|
      ensures r.Rejected? ==>
                && |uses| < |Letters(token[1..])|
                && var name := Letters(token[1..])[|uses|];
                   if name in argumentMap then Barred(r.refusal, tokens, argumentMap[name], start + |UsedTokens(uses)|, before + uses, used)
                   else r.refusal == Unknown(token)
    {
      hide Ledger, UsedTokens, Letters, Granted, Barred;
      NoUses();
      ghost var names := Letters(token[1..]);
      var it := start;
      uses := [];
      assert before + uses == before;
      assert UsedTokens(uses) == tokens[start..it];
      for j := 1 to |token|
        invariant start <= it <= |tokens| && |uses| == j - 1
        invariant UsedTokens(uses) == tokens[start..it] && Ledger(before + uses, given, used)
        invariant Chained(tokens, names, start, before, used, uses)
      {
        var name := ['-', token[j]];
        assert token[1..][j - 1] == token[j] && names[j - 1] == name;
        if name !in argumentMap {
          return Rejected(Unknown(token)), uses;
        }
        r := Give(argumentMap[name], tokens, it, name, before + uses, given, used);
        if r.Rejected? {
          return;
        }
        ghost var u := Use(argumentMap[name], it, tokens[it..r.next]);
        UsedGrows(uses, u);
        ChainGrows(tokens, names, start, before, used, uses, u);
        assert (before + uses) + [u] == before + (uses + [u]);
        assert tokens[start..it] + tokens[it..r.next] == tokens[start..r.next];
        uses, it := uses + [u], r.next;
      }
      r := Upto(it);
    }

    lemma NothingChained(tokens: seq<string>, names: seq<string>, start: nat, before: seq<Use>, used: seq<bool>)
      requires |used| == |arguments|
      ensures Chained(tokens, names, start, before, used, []) && UsedTokens([]) == [] && before + [] == before
    {
    }

    /** An option given by its own name takes what follows. */
    method ParseNamed(tokens: seq<string>, start: nat, ghost before: seq<Use>, ghost given: seq<seq<string>>,
        ghost used: seq<bool>)
      returns (r: Consumed, ghost uses: seq<Use>)
      requires Valid() && start < |tokens| && tokens[start] in argumentMap
      requires |given| == |used| == |arguments| && Ledger(before, given, used)
      modifies arguments
      ensures Chained(tokens, [tokens[start]], start + 1, before, used, uses)
      ensures r.Upto? ==> start < r.next <= |tokens| && |uses| == 1 && Ledger(before + uses, given, used)
      ensures r.Upto? ==> UsedTokens(uses) == tokens[start + 1..r.next]
      ensures r.Rejected? ==> uses == [] && Barred(r.refusal, tokens, argumentMap[tokens[start]], start + 1, before, used)
    {
      hide Ledger, UsedTokens, Granted, Barred, Chained;
      var a := argumentMap[tokens[start]];
      uses := [];
      NothingChained(tokens, [tokens[start]], start + 1, before, used);
      r := Give(a, tokens, start + 1, tokens[start], before, given, used);
      if r.Upto? {
        uses := [Use(a, start + 1, tokens[start + 1..r.next])];
        UsedGrows([], uses[0]);
        ChainGrows(tokens, [tokens[start]], start + 1, before, used, [], uses[0]);
        assert [] + uses == uses;
      }
    }

    /** An option-like token, and what it makes the options it names take; or why it may not come here. */
    method ParseOption(tokens: seq<string>, start: nat, ghost before: seq<Use>, ghost given: seq<seq<string>>,
        ghost used: seq<bool>)
      returns (r: Consumed, ghost uses: seq<Use>)
      requires Valid() && start < |tokens|
      requires |given| == |used| == |arguments| && Ledger(before, given, used)
      modifies arguments
      ensures r.Upto? ==> start < r.next <= |tokens| && Ledger(before + uses, given, used)
      ensures r.Upto? ==> StepTokens(AsOption(tokens[start], uses)) == tokens[start..r.next]
      ensures r.Upto? ==>
                && (tokens[start] in argumentMap || Compound(tokens[start])) && |uses| == |Names(tokens[start])|
                && Chained(tokens, Names(tokens[start]), start + 1, before, used, uses)
      ensures r.Rejected? ==>
                if tokens[start] !in argumentMap && !Compound(tokens[start]) then r.refusal == Unknown(tokens[start])
                else StuckInside(r.refusal, tokens, start, before, used, uses)
    {
      hide Ledger, UsedTokens, Letters, Chained, Barred;
      var token := tokens[start];
      uses := [];
      if token in argumentMap {
        NoUses();
        r, uses := ParseNamed(tokens, start, before, given, used);
        assert before + [] == before;
      } else if |token| > 1 && token[0] in prefixChars && token[1] !in prefixChars {
        r, uses := ParseLetters(token, tokens, start + 1, before, given, used);
      } else {
        r := Rejected(Unknown(token));
      }
      if r.Upto? {
        assert [tokens[start]] + tokens[start + 1..r.next] == tokens[start..r.next];
      }
    }

    // ---------- The whole command line ----------

    /**
     The steps account for every token from the second up to the one before `it`: each was an option's
     name or was given to exactly one argument, in order. The positional arguments used are the first ones.
     */
    ghost predicate Accounted(tokens: seq<string>, it: nat, steps: seq<Move>, used: seq<bool>)
      requires |used| == |arguments|
    {
      && 1 <= it <= |tokens|
      && Tokens(steps) == tokens[1..it]
      && Shared(tokens, steps, used)
      && PositionalUses(steps) <= positionals
    }

    lemma StepsGrow(steps: seq<Move>, s: Move)
      ensures Tokens(steps + [s]) == Tokens(steps) + StepTokens(s)
      ensures Uses(steps + [s]) == Uses(steps) + UsesOf(s)
      ensures PositionalUses(steps + [s]) == PositionalUses(steps) + if s.AsPositional? then [s.use.arg] else []
    {
      assert (steps + [s])[..|steps|] == steps;
    }

    lemma AccountedFurther(tokens: seq<string>, it: nat, next: nat, steps: seq<Move>, used: seq<bool>, s: Move)
      requires |used| == |arguments| && Accounted(tokens, it, steps, used)
      requires it <= next <= |tokens| && StepTokens(s) == tokens[it..next] && Follows(tokens, it, steps, used, s)
      ensures Accounted(tokens, next, steps + [s], used)
      ensures Uses(steps + [s]) == Uses(steps) + UsesOf(s)
      ensures |PositionalUses(steps + [s])| == |PositionalUses(steps)| + if s.AsPositional? then 1 else 0
    {
      hide Tokens, Uses, PositionalUses, StepTokens, Granted, Chained, Names;
      StepsGrow(steps, s);
      assert (steps + [s])[..|steps|] == steps;
      assert tokens[1..it] + tokens[it..next] == tokens[1..next];
    }

    lemma NothingYet(tokens: seq<string>, used: seq<bool>)
      requires tokens != [] && |used| == |arguments|
      ensures Accounted(tokens, 1, [], used) && Uses([]) == [] && PositionalUses([]) == []
    {
    }

    lemma StuckIsTheEnd(refusal: Refusal, tokens: seq<string>, it: nat, steps: seq<Move>, used: seq<bool>, partly: seq<Use>)
      requires |used| == |arguments| && Accounted(tokens, it, steps, used) && Stuck(refusal, tokens, steps, used, partly)
      ensures forall b :: !SharedOut(tokens, b, used)
    {
      hide Tokens, Follows, Shared, PositionalUses, Stuck;
      forall s
        ensures !Follows(tokens, it, steps, used, s)
      {
        StuckFollowsNothing(refusal, tokens, steps, used, partly, s);
      }
      StuckBefore(refusal, tokens, steps, used, partly);
      forall b
        ensures !SharedOut(tokens, b, used)
      {
        NoOtherWay(tokens, steps, b, used);
      }
    }

    lemma StuckBefore(refusal: Refusal, tokens: seq<string>, steps: seq<Move>, used: seq<bool>, partly: seq<Use>)
      requires |used| == |arguments| && Stuck(refusal, tokens, steps, used, partly)
      ensures 1 + |Tokens(steps)| < |tokens|
    {
    }

    lemma SubcommandIsTheEnd(tokens: seq<string>, it: nat, steps: seq<Move>, used: seq<bool>)
      requires |used| == |arguments| && Accounted(tokens, it, steps, used) && it < |tokens|
      requires Positional(tokens[it], prefixChars) && |PositionalUses(steps)| == |positionals|
      ensures PositionalUses(steps) == positionals
      ensures forall b :: !SharedOut(tokens, b, used)
    {
      forall b
        ensures !SharedOut(tokens, b, used)
      {
        assert NothingFollows(tokens, it, steps, used);
        hide Tokens, Follows, Shared, PositionalUses;
        NoOtherWay(tokens, steps, b, used);
      }
    }

    lemma AllIsShared(tokens: seq<string>, steps: seq<Move>, used: seq<bool>)
      requires |used| == |arguments| && Accounted(tokens, |tokens|, steps, used)
      ensures SharedOut(tokens, steps, used)
    {
    }

    lemma IsStuck(refusal: Refusal, tokens: seq<string>, it: nat, steps: seq<Move>, used: seq<bool>, partly: seq<Use>)
      requires |used| == |arguments| && Accounted(tokens, it, steps, used) && it < |tokens|
      requires var token, position := tokens[it], |PositionalUses(steps)|;
               if Positional(token, prefixChars) then
                 if position < |positionals| then Barred(refusal, tokens, positionals[position], it, Uses(steps), used)
                 else refusal == TooManyPositionals && token !in subcommands
               else if token !in argumentMap && !Compound(token) then
                 refusal == Unknown(token)
               else
                 StuckInside(refusal, tokens, it, Uses(steps), used, partly)
      ensures Stuck(refusal, tokens, steps, used, partly)
    {
    }

    /**
     Shares out all tokens but the first, and succeeds exactly if there is a way to. The steps account for the
     tokens before `at`, where it stops; there it has met a subcommand, or something that may not come next.
     */
    method ParseArgsInternal(tokens: seq<string>, ghost given: seq<seq<string>>, ghost used: seq<bool>)
      returns (outcome: Verdict, ghost steps: seq<Move>, ghost at: nat, ghost partly: seq<Use>)
      requires Valid() && tokens != []
      requires |given| == |used| == |arguments| && Ledger([], given, used)
      modifies this, arguments
      ensures Accounted(tokens, at, steps, used)
      ensures outcome.Parsed? <==> exists all :: SharedOut(tokens, all, used)
      ensures !outcome.Refused? ==> isParsed && Ledger(Uses(steps), given, used)
      ensures outcome.Parsed? ==> at == |tokens| && SharedOut(tokens, steps, used)
      ensures outcome.Subcommand? ==>
                && at < |tokens| && Positional(tokens[at], prefixChars) && PositionalUses(steps) == positionals
                && outcome.name == tokens[at] && outcome.name in subcommands && outcome.rest == tokens[at..]
      ensures outcome.Refused? ==> Stuck(outcome.refusal, tokens, steps, used, partly)
    {
      hide Ledger, Tokens, Uses, PositionalUses, Positional, Accounted, Granted, Barred, Chained, Stuck, StuckInside, SharedOut, Names;
      var it, position := 1, 0;
      steps, partly := [], [];
      NothingYet(tokens, used);
      while it < |tokens|
        invariant 1 <= it <= |tokens| && position == |PositionalUses(steps)| <= |positionals|
        invariant Accounted(tokens, it, steps, used) && Ledger(Uses(steps), given, used)
        decreases |tokens| - it, |positionals| - position
      {
        at := it;
        var token := tokens[it];
        var positional := IsPositional(token, prefixChars);
        if positional {
          if position == |positionals| {
            SubcommandIsTheEnd(tokens, it, steps, used);
            if token in subcommands {
              isParsed := true;
              outcome := Subcommand(token, tokens[it..]);
            } else {
              outcome := Refused(TooManyPositionals);
              IsStuck(TooManyPositionals, tokens, it, steps, used, partly);
            }
            return;
          }
          var a := positionals[position];
          position := position + 1;
          var r := Give(a, tokens, it, "", Uses(steps), given, used);
          if r.Rejected? {
            outcome := Refused(r.refusal);
            IsStuck(r.refusal, tokens, it, steps, used, partly);
            StuckIsTheEnd(r.refusal, tokens, it, steps, used, partly);
            return;
          }
          ghost var s := AsPositional(Use(a, it, tokens[it..r.next]));
          AccountedFurther(tokens, it, r.next, steps, used, s);
          steps, it := steps + [s], r.next;
        } else {
          var r, uses := ParseOption(tokens, it, Uses(steps), given, used);
          if r.Rejected? {
            outcome := Refused(r.refusal);
            partly := uses;
            IsStuck(r.refusal, tokens, it, steps, used, partly);
            StuckIsTheEnd(r.refusal, tokens, it, steps, used, partly);
            return;
          }
          AccountedFurther(tokens, it, r.next, steps, used, AsOption(token, uses));
          steps, it := steps + [AsOption(token, uses)], r.next;
        }
      }
      at := it;
      isParsed := true;
      outcome := Parsed;
      AllIsShared(tokens, steps, used);
    }
  }
}

/**
 * What the permuting scan makes of each element, by rules that look at the element and the one before it
 * only: an option's argument, an option, `--`, or a non-option.  The scan's results are the elements of
 * each kind, in order, up to the place where these rules end it.
 */
module GetoptRoles {
  import opened Seqs
  import opened Getopt

  /** The text alone makes the element an option or `--`: it starts with a dash, and a lone dash counts
      only if the option string has it. */
  predicate Dashed(syntax: Syntax, arg: string) { "-" <= arg && (arg == "-" ==> syntax.dashIsOption) }

  /** The element is the argument of the option before it. */
  predicate IsArgument(syntax: Syntax, args: seq<string>, first: nat, i: nat)
    requires i <= |args|
    decreases i
  {
    && i > first && syntax.takesNext(args[i - 1]) && Dashed(syntax, args[i - 1]) && args[i - 1] != "--"
    && !IsArgument(syntax, args, first, i - 1)
  }

  /** The element is `--` and not an argument. */
  predicate IsTerminator(syntax: Syntax, args: seq<string>, first: nat, i: nat)
    requires i < |args|
  {
    args[i] == "--" && !IsArgument(syntax, args, first, i)
  }

  /** The element is an option whose cluster ends in a dash. */
  predicate IsCutter(syntax: Syntax, args: seq<string>, first: nat, i: nat)
    requires i < |args|
  {
    && Dashed(syntax, args[i]) && args[i] != "--" && syntax.endsInDash(args[i])
    && !IsArgument(syntax, args, first, i)
  }

  /** The elements from `a` to `b` on the options' side, or on the other. */
  function Select(syntax: Syntax, args: seq<string>, first: nat, a: nat, b: nat, options: bool): seq<string>
    requires a <= b <= |args|
    decreases b - a
  {
    if a == b then []
    else (if (Dashed(syntax, args[a]) || IsArgument(syntax, args, first, a)) == options then [args[a]] else [])
         + Select(syntax, args, first, a + 1, b, options)
  }

  /** The scan that comes to `i` ends at `stop`: right behind the first `--`, at the first cutter, or with
      the vector. */
  ghost predicate EndsAt(syntax: Syntax, args: seq<string>, first: nat, i: nat, stop: nat) {
    && i <= stop <= |args|
    && (forall j :: i <= j < stop ==> !IsCutter(syntax, args, first, j))
    && (forall j :: i <= j < stop && IsTerminator(syntax, args, first, j) ==> j == stop - 1)
    && (stop == |args|
        || (stop > i && IsTerminator(syntax, args, first, stop - 1)) || IsCutter(syntax, args, first, stop))
  }

  lemma TextIs(syntax: Syntax, arg: string)
    ensures syntax.IsNonOption(arg) <==> !Dashed(syntax, arg)
    ensures syntax.IsEnd(arg) <==> arg == "--"
  {
    assert "-" <= arg <==> arg != [] && arg[0] == '-';
    assert |arg| == 1 && arg[0] == '-' ==> arg == "-";
  }

  /** What the scan that comes to `i` finds is what the rules say of the elements from there on. */
  ghost predicate ByTheRules(syntax: Syntax, args: seq<string>, first: nat, i: nat)
    requires i <= |args|
  {
    var stop := syntax.Stop(args, i);
    && EndsAt(syntax, args, first, i, stop)
    && syntax.Options(args, i) == Select(syntax, args, first, i, stop, true)
    && syntax.NonOptions(args, i) == Select(syntax, args, first, i, stop, false)
    && (syntax.CutShort(args, i) <==>
        stop < |args| && !(stop > i && IsTerminator(syntax, args, first, stop - 1)))
  }

  lemma {:induction false} Classified(syntax: Syntax, args: seq<string>, first: nat, i: nat)
    requires first <= i <= |args| && (i < |args| ==> !IsArgument(syntax, args, first, i))
    ensures ByTheRules(syntax, args, first, i)
    decreases |args| - i
  {
    if i < |args| {
      TextIs(syntax, args[i]);
      if syntax.IsNonOption(args[i]) {
        Classified(syntax, args, first, i + 1);
        Skipped(syntax, args, first, i);
      } else if syntax.IsEnd(args[i]) || syntax.endsInDash(args[i]) {
        Ended(syntax, args, first, i);
      } else {
        Classified(syntax, args, first, i + syntax.Width(args, i));
        Taken(syntax, args, first, i);
      }
    }
  }

  /** A non-option in front. */
  lemma Skipped(syntax: Syntax, args: seq<string>, first: nat, i: nat)
    requires first <= i < |args| && !IsArgument(syntax, args, first, i) && syntax.IsNonOption(args[i])
    requires ByTheRules(syntax, args, first, i + 1)
    ensures ByTheRules(syntax, args, first, i)
  {
    TextIs(syntax, args[i]);
  }

  /** The end of the scan. */
  lemma Ended(syntax: Syntax, args: seq<string>, first: nat, i: nat)
    requires first <= i < |args| && !IsArgument(syntax, args, first, i) && !syntax.IsNonOption(args[i])
    requires syntax.IsEnd(args[i]) || syntax.endsInDash(args[i])
    ensures ByTheRules(syntax, args, first, i)
  {
    TextIs(syntax, args[i]);
    if syntax.IsEnd(args[i]) {
      assert IsTerminator(syntax, args, first, i);
    } else {
      assert IsCutter(syntax, args, first, i);
    }
  }

  /** An option and its argument in front. */
  lemma Taken(syntax: Syntax, args: seq<string>, first: nat, i: nat)
    requires first <= i < |args| && !IsArgument(syntax, args, first, i)
    requires !syntax.IsNonOption(args[i]) && !syntax.IsEnd(args[i]) && !syntax.endsInDash(args[i])
    requires ByTheRules(syntax, args, first, i + syntax.Width(args, i))
    ensures ByTheRules(syntax, args, first, i)
  {
    TextIs(syntax, args[i]);
    var j, stop := i + syntax.Width(args, i), syntax.Stop(args, i);
    ScanStep(syntax, args, i);
    assert j == i + 2 ==> IsArgument(syntax, args, first, i + 1);
    SelectTaken(syntax, args, first, i, j, stop, true);
    SelectTaken(syntax, args, first, i, j, stop, false);
    EndsTaken(syntax, args, first, i, j, stop);
    assert [] + Select(syntax, args, first, j, stop, false) == Select(syntax, args, first, j, stop, false);
  }

  /** The scan at an option it takes. */
  lemma ScanStep(syntax: Syntax, args: seq<string>, i: nat)
    requires i < |args| && !syntax.IsNonOption(args[i]) && !syntax.IsEnd(args[i]) && !syntax.endsInDash(args[i])
    ensures var j := i + syntax.Width(args, i);
            && j <= syntax.Stop(args, j) == syntax.Stop(args, i)
            && syntax.Options(args, i) == args[i..j] + syntax.Options(args, j)
            && syntax.NonOptions(args, i) == syntax.NonOptions(args, j)
            && syntax.CutShort(args, i) == syntax.CutShort(args, j)
  {}

  lemma SelectTaken(syntax: Syntax, args: seq<string>, first: nat, i: nat, j: nat, stop: nat, options: bool)
    requires i < j <= stop <= |args| && j <= i + 2 && Dashed(syntax, args[i])
    requires j == i + 2 ==> IsArgument(syntax, args, first, i + 1)
    ensures Select(syntax, args, first, i, stop, options) ==
            (if options then args[i..j] else []) + Select(syntax, args, first, j, stop, options)
  {
    var rest := Select(syntax, args, first, j, stop, options);
    if j == i + 2 {
      assert args[i..j] == [args[i]] + [args[i + 1]];
      Associates([args[i]], [args[i + 1]], rest);
    } else {
      assert args[i..j] == [args[i]];
    }
  }

  lemma EndsTaken(syntax: Syntax, args: seq<string>, first: nat, i: nat, j: nat, stop: nat)
    requires i < j <= |args| && j <= i + 2 && args[i] != "--" && !syntax.endsInDash(args[i])
    requires j == i + 2 ==> IsArgument(syntax, args, first, i + 1)
    requires EndsAt(syntax, args, first, j, stop)
    ensures EndsAt(syntax, args, first, i, stop) && !IsTerminator(syntax, args, first, j - 1)
  {}

  /** What a whole scan classifies: every element up to its end, by the rules above. */
  lemma ScanClassifies(syntax: Syntax, args: seq<string>, first: nat)
    requires first <= |args|
    ensures var stop := syntax.Stop(args, first);
            && EndsAt(syntax, args, first, first, stop)
            && syntax.Options(args, first) == Select(syntax, args, first, first, stop, true)
            && syntax.NonOptions(args, first) == Select(syntax, args, first, first, stop, false)
            && (syntax.CutShort(args, first) <==>
                stop < |args| && !(stop > first && IsTerminator(syntax, args, first, stop - 1)))
  {
    Classified(syntax, args, first, first);
  }
}

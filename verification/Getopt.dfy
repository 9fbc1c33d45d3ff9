/**
 * The permuting scan of `getopt_internal`.  Looking an option up is abstracted to how many calls
 * read the element (one per letter of a cluster), how many argv slots it takes (one, or two when its
 * argument is the next element) and whether it is a cluster that ends in a dash.
 */
module Getopt {
  import opened Seqs
  import opened BlockExchange

  /** What the scan needs to know of the option string and the long options. */
  datatype Syntax = Syntax(dashIsOption: bool, takesNext: string -> bool,
                           calls: string -> nat, endsInDash: string -> bool)
  {

    predicate IsNonOption(arg: string) {
      |arg| == 0 || arg[0] != '-' || (|arg| == 1 && !dashIsOption)
    }

    predicate IsEnd(arg: string) {
      |arg| == 2 && arg[0] == '-' && arg[1] == '-'
    }

    /** Slots taken by the option at `i`; a missing argument at the end takes none. */
    function Width(args: seq<string>, i: nat): nat
      requires i < |args|
    {
      if takesNext(args[i]) && i + 1 < |args| then 2 else 1
    }

    /** The first option from `i` on, or the end. */
    function Next(args: seq<string>, i: nat): (r: nat)
      requires i <= |args|
      ensures i <= r <= |args|
      decreases |args| - i
    {
      if i < |args| && IsNonOption(args[i]) then Next(args, i + 1) else i
    }

    /** A scan from `i` is cut short by a cluster that ends in a dash. */
    predicate CutShort(args: seq<string>, i: nat)
      requires i <= |args|
      decreases |args| - i
    {
      if i == |args| then false
      else if IsNonOption(args[i]) then CutShort(args, i + 1)
      else if IsEnd(args[i]) then false
      else endsInDash(args[i]) || CutShort(args, i + Width(args, i))
    }

    /** Where a scan from `i` stops: at the end, after the first `--` it meets as an option, or at the
        cluster that cuts it short. */
    function Stop(args: seq<string>, i: nat): nat
      requires i <= |args|
      ensures i <= Stop(args, i) <= |args|
      decreases |args| - i
    {
      if i == |args| then i
      else if IsNonOption(args[i]) then Stop(args, i + 1)
      else if IsEnd(args[i]) then i + 1
      else if endsInDash(args[i]) then i
      else Stop(args, i + Width(args, i))
    }

    /** The options, with their arguments, that a scan from `i` meets, in order. */
    function Options(args: seq<string>, i: nat): seq<string>
      requires i <= |args|
      decreases |args| - i
    {
      if i == |args| then []
      else if IsNonOption(args[i]) then Options(args, i + 1)
      else if IsEnd(args[i]) then [args[i]]
      else if endsInDash(args[i]) then []
      else args[i..i + Width(args, i)] + Options(args, i + Width(args, i))
    }

    /** The non-options that a scan from `i` skips, in order. */
    function NonOptions(args: seq<string>, i: nat): seq<string>
      requires i <= |args|
      decreases |args| - i
    {
      if i == |args| then []
      else if IsNonOption(args[i]) then [args[i]] + NonOptions(args, i + 1)
      else if IsEnd(args[i]) || endsInDash(args[i]) then []
      else NonOptions(args, i + Width(args, i))
    }

    /** What a scan from `first` classifies is what has been read and what a scan from `at` does. */
    predicate Unclassified(orig: seq<string>, first: nat, opts: seq<string>, nonopts: seq<string>, at: int) {
      && first <= |orig| && 0 <= at <= |orig|
      && Options(orig, first) == opts + Options(orig, at)
      && NonOptions(orig, first) == nonopts + NonOptions(orig, at)
      && Stop(orig, first) == Stop(orig, at)
      && CutShort(orig, first) == CutShort(orig, at)
    }

    /** Options and non-options together are the scanned elements, each exactly once. */
    lemma {:induction false} Partition(args: seq<string>, i: nat)
      requires i <= |args|
      ensures multiset(Options(args, i)) + multiset(NonOptions(args, i)) == multiset(args[i..Stop(args, i)])
      decreases |args| - i
    {
      if i == |args| {
      } else if IsNonOption(args[i]) {
        Partition(args, i + 1);
        assert [] + [args[i]] == args[i..i + 1] && [] + Options(args, i + 1) == Options(args, i);
        JoinedAt([], [args[i]], Options(args, i + 1), NonOptions(args, i + 1), args, i, i + 1, Stop(args, i));
      } else if IsEnd(args[i]) {
        assert args[i..i + 1] == [args[i]];
      } else if !endsInDash(args[i]) {
        var j := i + Width(args, i);
        Partition(args, j);
        assert args[i..j] + [] == args[i..j] && [] + NonOptions(args, j) == NonOptions(args, i);
        JoinedAt(args[i..j], [], Options(args, j), NonOptions(args, j), args, i, j, Stop(args, i));
      }
    }
  }

  /** One of two parts of a permutation grows by the elements in front. */
  lemma JoinedAt(p: seq<string>, q: seq<string>, o: seq<string>, n: seq<string>, args: seq<string>, i: nat, j: nat,
                 stop: nat)
    requires i <= j <= stop <= |args| && p + q == args[i..j]
    requires multiset(o) + multiset(n) == multiset(args[j..stop])
    ensures multiset(p + o) + multiset(q + n) == multiset(args[i..stop])
  {
    Joined(p, q, o, n, args[j..stop]);
    Slices(args, i, j, stop);
  }

  lemma Slices(args: seq<string>, i: nat, j: nat, stop: nat)
    requires i <= j <= stop <= |args|
    ensures args[i..stop] == args[i..j] + args[j..stop]
  {}

  lemma Joined(p: seq<string>, q: seq<string>, o: seq<string>, n: seq<string>, rest: seq<string>)
    requires multiset(o) + multiset(n) == multiset(rest)
    ensures multiset(p + o) + multiset(q + n) == multiset((p + q) + rest)
  {}

  /** The elements before the scan, the first `k` of the options, the non-options, the options read
      since, and the unread rest. */
  function Laid(orig: seq<string>, first: nat, optind: int, k: int, opts: seq<string>,
                nonopts: seq<string>): seq<string>
    requires first <= optind <= |orig| && 0 <= k <= |opts|
  {
    orig[..first] + opts[..k] + nonopts + opts[k..] + orig[optind..]
  }

  /** How many options stand in front of the block of non-options. */
  function InFront(first: nat, start: int, opts: seq<string>): int {
    if start == -1 then |opts| else start - first
  }

  /** The vector in the middle of a scan that has read `optind` elements: the options so far, with
      the non-options so far as one block inside or behind them, then the unread rest. */
  ghost predicate Arranged(cur: seq<string>, orig: seq<string>, first: nat, optind: int, start: int, end: int,
                           opts: seq<string>, nonopts: seq<string>)
  {
    var k := InFront(first, start, opts);
    && first <= optind <= |orig| && |opts| + |nonopts| == optind - first && 0 <= k <= |opts|
    && cur == Laid(orig, first, optind, k, opts, nonopts)
    && (start == -1 <==> nonopts == [])
    && (if end == -1 then k == |opts| else start != -1 && end == start + |nonopts|)
  }

  lemma SplitJoins(a: seq<string>, b: seq<string>, k: nat)
    requires k <= |b|
    ensures a + b[..k] + b[k..] == a + b
  {}

  /** A block behind all options. */
  lemma LaidBehind(orig: seq<string>, first: nat, optind: int, opts: seq<string>, nonopts: seq<string>)
    requires first <= optind <= |orig|
    ensures Laid(orig, first, optind, |opts|, opts, nonopts) == orig[..first] + opts + nonopts + orig[optind..]
  {
    assert opts[..|opts|] == opts && opts[|opts|..] == [];
    assert orig[..first] + opts + nonopts + [] == orig[..first] + opts + nonopts;
  }

  /** Exchanging the non-options with the options behind them moves all options to the front. */
  lemma ExchangeArranges(cur: seq<string>, orig: seq<string>, first: nat, optind: int, start: int, end: int,
                         opts: seq<string>, nonopts: seq<string>)
    requires Arranged(cur, orig, first, optind, start, end, opts, nonopts) && end != -1
    ensures 0 <= start < end <= optind <= |cur|
    ensures Exchanged(cur, start, end, optind) == orig[..first] + opts + nonopts + orig[optind..]
    ensures optind - (end - start) == first + |opts|
  {
    var k := start - first;
    var a, b, rest := orig[..first] + opts[..k], opts[k..], orig[optind..];
    assert |a| == start && |a| + |nonopts| == end && |a| + |nonopts| + |b| == optind;
    ExchangeParts(a, nonopts, b, rest);
    assert a + b == orig[..first] + opts by { SplitJoins(orig[..first], opts, k); }
  }

  lemma ExchangeParts(a: seq<string>, b: seq<string>, c: seq<string>, d: seq<string>)
    ensures Exchanged(a + b + c + d, |a|, |a| + |b|, |a| + |b| + |c|) == a + c + b + d
  {
    Parts(a, b, c, d);
  }

  lemma Parts(a: seq<string>, b: seq<string>, c: seq<string>, d: seq<string>)
    ensures var s, i, j, k := a + b + c + d, |a|, |a| + |b|, |a| + |b| + |c|;
            s[..i] == a && s[i..j] == b && s[j..k] == c && s[k..] == d
  {}

  /** One more non-option behind the options and the earlier non-options. */
  lemma SkipArranges(cur: seq<string>, orig: seq<string>, first: nat, optind: int, opts: seq<string>,
                     nonopts: seq<string>)
    requires first <= optind < |orig| && |opts| + |nonopts| == optind - first
    requires cur == orig[..first] + opts + nonopts + orig[optind..]
    ensures Arranged(cur, orig, first, optind + 1, first + |opts|, -1, opts, nonopts + [orig[optind]])
  {
    LaidBehind(orig, first, optind + 1, opts, nonopts + [orig[optind]]);
    assert orig[optind..] == [orig[optind]] + orig[optind + 1..];
    Shift(orig[..first] + opts, nonopts, [orig[optind]], orig[optind + 1..]);
  }

  lemma Shift(a: seq<string>, b: seq<string>, c: seq<string>, d: seq<string>)
    ensures a + b + (c + d) == a + (b + c) + d
  {}

  /** An option of the given width behind whatever has been read. */
  lemma TakeArranges(cur: seq<string>, orig: seq<string>, first: nat, optind: int, start: int, end: int,
                     opts: seq<string>, nonopts: seq<string>, width: nat)
    requires Arranged(cur, orig, first, optind, start, end, opts, nonopts) && 0 < width && optind + width <= |orig|
    requires start != -1 ==> end != -1
    ensures Arranged(cur, orig, first, optind + width, start, end, opts + orig[optind..optind + width], nonopts)
    ensures end != -1 ==> end < optind + width
  {
    var taken, rest := orig[optind..optind + width], orig[optind + width..];
    assert orig[optind..] == taken + rest;
    if start == -1 {
      LaidBehind(orig, first, optind, opts, []);
      LaidBehind(orig, first, optind + width, opts + taken, []);
      Shift(orig[..first], opts, taken, rest);
      assert orig[..first] + opts + [] == orig[..first] + opts;
      assert orig[..first] + (opts + taken) + [] == orig[..first] + (opts + taken);
    } else {
      var k := start - first;
      assert (opts + taken)[..k] == opts[..k] && (opts + taken)[k..] == opts[k..] + taken;
      Shift(orig[..first] + opts[..k] + nonopts, opts[k..], taken, rest);
    }
  }

  /** The unread part is untouched. */
  lemma Unread(cur: seq<string>, orig: seq<string>, first: nat, optind: int, start: int, end: int,
               opts: seq<string>, nonopts: seq<string>)
    requires Arranged(cur, orig, first, optind, start, end, opts, nonopts)
    ensures |cur| == |orig| && cur[optind..] == orig[optind..]
    ensures optind < |cur| ==> cur[optind] == orig[optind]
  {
    var k := InFront(first, start, opts);
    Parts(orig[..first] + opts[..k], nonopts, opts[k..], orig[optind..]);
    if optind < |cur| { assert cur[optind] == cur[optind..][0]; }
  }

  /** A non-option joins the non-options. */
  lemma OneSkipped(syntax: Syntax, orig: seq<string>, first: nat, opts: seq<string>, nonopts: seq<string>, at: nat)
    requires syntax.Unclassified(orig, first, opts, nonopts, at) && at < |orig| && syntax.IsNonOption(orig[at])
    ensures syntax.Unclassified(orig, first, opts, nonopts + [orig[at]], at + 1)
  {
    Associates(nonopts, [orig[at]], syntax.NonOptions(orig, at + 1));
  }

  /** An element that is neither `--` nor a cluster ending in a dash joins the options. */
  lemma OneClassified(syntax: Syntax, orig: seq<string>, first: nat, opts: seq<string>, nonopts: seq<string>, at: nat)
    requires syntax.Unclassified(orig, first, opts, nonopts, at) && at < |orig| && !syntax.IsNonOption(orig[at])
    requires !syntax.IsEnd(orig[at]) && !syntax.endsInDash(orig[at])
    ensures var width := syntax.Width(orig, at);
            syntax.Unclassified(orig, first, opts + orig[at..at + width], nonopts, at + width)
  {
    var width := syntax.Width(orig, at);
    Associates(opts, orig[at..at + width], syntax.Options(orig, at + width));
  }

  /** What a call tells: a letter, the end of the scan, or the dash of a cluster. */
  datatype Result = Letter | End | Dash

  class Scanner {
    const syntax: Syntax
    const nargv: array<string>
    ghost const orig: seq<string>
    const first: nat
    var optind: int
    var nonoptStart: int
    var nonoptEnd: int
    var place: nat
    ghost var opts: seq<string>
    ghost var nonopts: seq<string>

    /** The scan has read everything before `optind`, and `place` calls have read of the cluster at
        `optind`; the rest is still to be classified. */
    ghost predicate Valid()
      reads this, nargv
    {
      && Arranged(nargv[..], orig, first, optind, nonoptStart, nonoptEnd, opts, nonopts)
      && (if place == 0 then nonoptEnd != -1 ==> nonoptEnd < optind else InCluster())
      && syntax.Unclassified(orig, first, opts, nonopts, optind)
    }

    ghost predicate InCluster()
      reads this
    {
      && 0 <= optind < |orig| && !syntax.IsNonOption(orig[optind]) && !syntax.IsEnd(orig[optind])
      && place < syntax.calls(orig[optind]) && (nonoptStart != -1 ==> nonoptEnd != -1)
    }

    /** A cluster that ends in a dash has ended the scan: nothing has been moved, and `optind` points
        at the cluster. */
    ghost predicate Interrupted()
      reads this, nargv
    {
      && first <= |orig| && syntax.CutShort(orig, first) && optind == syntax.Stop(orig, first)
      && Arranged(nargv[..], orig, first, optind, nonoptStart, nonoptEnd,
                  syntax.Options(orig, first), syntax.NonOptions(orig, first))
    }

    /** The scanned part is a stable partition and `optind` points at the first non-option. */
    ghost predicate Finished()
      reads this, nargv
    {
      && first <= |orig|
      && nargv[..] == orig[..first] + syntax.Options(orig, first) + syntax.NonOptions(orig, first)
                      + orig[syntax.Stop(orig, first)..]
      && optind == first + |syntax.Options(orig, first)|
    }

    constructor (syntax: Syntax, nargv: array<string>, first: nat)
      requires first <= nargv.Length
      ensures Valid() && place == 0 && orig == nargv[..]
      ensures this.nargv == nargv && this.first == first && this.syntax == syntax
    {
      this.syntax, this.nargv, this.first := syntax, nargv, first;
      orig := nargv[..];
      optind, nonoptStart, nonoptEnd, place := first, -1, -1, 0;
      opts, nonopts := [], [];
      new;
      LaidBehind(orig, first, first, [], []);
      assert nargv[..] == orig[..first] + [] + [] + orig[first..];
    }

    /** Moves the skipped non-options behind the options read since, as the source does at the end
        of the vector, at `--` and before a further non-option. */
    method Permute(ghost read: int)
      requires Arranged(nargv[..], orig, first, read, nonoptStart, nonoptEnd, opts, nonopts)
      requires optind == read && nonoptEnd != -1 && nonoptEnd < optind
      modifies nargv
      ensures nargv[..] == orig[..first] + opts + nonopts + orig[optind..]
      ensures optind - (nonoptEnd - nonoptStart) == first + |opts|
    {
      ExchangeArranges(nargv[..], orig, first, optind, nonoptStart, nonoptEnd, opts, nonopts);
      PermuteArgs(nonoptStart, nonoptEnd, optind, nargv);
    }

    /** The end of the scan: put the options in front and point at the first non-option. */
    method Finish()
      requires Arranged(nargv[..], orig, first, optind, nonoptStart, nonoptEnd, opts, nonopts)
      requires nonoptEnd != -1 ==> nonoptEnd < optind
      requires syntax.Options(orig, first) == opts && syntax.NonOptions(orig, first) == nonopts
      requires syntax.Stop(orig, first) == optind
      modifies this`optind, this`nonoptStart, this`nonoptEnd, nargv
      ensures Finished() && nonoptStart == -1 && nonoptEnd == -1
    {
      if nonoptEnd != -1 {
        Permute(optind);
        optind := optind - (nonoptEnd - nonoptStart);
      } else {
        LaidBehind(orig, first, optind, opts, nonopts);
        if nonoptStart != -1 {
          optind := nonoptStart;
        }
      }
      nonoptStart, nonoptEnd := -1, -1;
    }

    /** Before a non-option is skipped: open its block, or close the options that followed earlier ones. */
    method Gather()
      requires Arranged(nargv[..], orig, first, optind, nonoptStart, nonoptEnd, opts, nonopts)
      requires nonoptEnd != -1 ==> nonoptEnd < optind
      modifies this`nonoptStart, this`nonoptEnd, nargv
      ensures nargv[..] == orig[..first] + opts + nonopts + orig[optind..]
      ensures nonoptStart == first + |opts| && nonoptEnd == -1
    {
      LaidBehind(orig, first, optind, opts, nonopts);
      if nonoptStart == -1 {
        nonoptStart := optind;
      } else if nonoptEnd != -1 {
        Permute(optind);
        nonoptStart := optind - (nonoptEnd - nonoptStart);
        nonoptEnd := -1;
      }
    }

    /** A non-option: skip it. */
    method Skip()
      requires Valid() && place == 0 && optind < nargv.Length && syntax.IsNonOption(orig[optind])
      modifies this`optind, this`nonoptStart, this`nonoptEnd, this`nonopts, nargv
      ensures Valid() && optind == old(optind) + 1
      ensures optind < nargv.Length ==> nargv[optind] == orig[optind]
    {
      OneSkipped(syntax, orig, first, opts, nonopts, optind);
      Gather();
      Pass();
    }

    /** The non-option behind everything read so far joins the block. */
    method Pass()
      requires 0 <= optind < |orig| && first <= optind && |opts| + |nonopts| == optind - first
      requires nargv[..] == orig[..first] + opts + nonopts + orig[optind..]
      requires nonoptStart == first + |opts| && nonoptEnd == -1
      modifies this`optind, this`nonopts
      ensures Arranged(nargv[..], orig, first, optind, nonoptStart, nonoptEnd, opts, nonopts)
      ensures optind == old(optind) + 1 && nonopts == old(nonopts) + [orig[old(optind)]]
      ensures optind < nargv.Length ==> nargv[optind] == orig[optind]
    {
      ghost var cur, more := nargv[..], nonopts + [orig[optind]];
      SkipArranges(cur, orig, first, optind, opts, nonopts);
      Unread(cur, orig, first, optind + 1, nonoptStart, nonoptEnd, opts, more);
      nonopts, optind := more, optind + 1;
      assert nargv[..] == cur;
    }

    /** Reading an option of the given width behind whatever has been read. */
    method Take(width: nat)
      requires Arranged(nargv[..], orig, first, optind, nonoptStart, nonoptEnd, opts, nonopts)
      requires 0 < width && optind + width <= nargv.Length && (nonoptStart != -1 ==> nonoptEnd != -1)
      modifies this`optind, this`opts
      ensures Arranged(nargv[..], orig, first, optind, nonoptStart, nonoptEnd, opts, nonopts)
      ensures nonoptEnd != -1 ==> nonoptEnd < optind
      ensures optind == old(optind) + width && opts == old(opts) + orig[old(optind)..optind]
    {
      ghost var cur := nargv[..];
      TakeArranges(cur, orig, first, optind, nonoptStart, nonoptEnd, opts, nonopts, width);
      opts, optind := opts + orig[optind..optind + width], optind + width;
      assert nargv[..] == cur;
    }

    /** `--` is read and ends the scan. */
    method TakeEnd()
      requires Valid() && place == 0 && optind < nargv.Length && syntax.IsEnd(orig[optind])
      modifies this`optind, this`nonoptStart, this`nonoptEnd, this`opts, nargv
      ensures Finished()
    {
      assert orig[optind..optind + 1] == [orig[optind]];
      assert nonopts + [] == nonopts;
      OpenCluster();
      Take(1);
      Finish();
    }

    /** One more letter of the cluster at `optind`: the last one takes the element, with its argument,
        unless it is a dash. */
    method ReadLetter() returns (r: Result)
      requires Valid() && optind < nargv.Length && nargv[optind] == orig[optind]
      requires !syntax.IsNonOption(orig[optind]) && !syntax.IsEnd(orig[optind])
      modifies this`optind, this`nonoptEnd, this`opts, this`place
      ensures r == Letter || r == Dash
      ensures r == Letter ==> Valid()
      ensures r == Letter && old(place) + 1 < syntax.calls(orig[old(optind)]) ==>
                optind == old(optind) && place == old(place) + 1 && opts == old(opts)
      ensures r == Letter && old(place) + 1 >= syntax.calls(orig[old(optind)]) ==>
                && place == 0 && optind == old(optind) + syntax.Width(orig, old(optind))
                && opts == old(opts) + orig[old(optind)..optind]
      ensures r == Dash ==> Interrupted() && old(place) + 1 >= syntax.calls(orig[old(optind)])
    {
      OpenCluster();
      if place + 1 < syntax.calls(nargv[optind]) {
        place := place + 1;
        return Letter;
      }
      place := 0;
      if syntax.endsInDash(nargv[optind]) {
        assert opts + [] == opts && nonopts + [] == nonopts;
        return Dash;
      }
      TakeOne();
      return Letter;
    }

    /** The first option behind skipped non-options ends their block. */
    method OpenCluster()
      requires Arranged(nargv[..], orig, first, optind, nonoptStart, nonoptEnd, opts, nonopts)
      modifies this`nonoptEnd
      ensures Arranged(nargv[..], orig, first, optind, nonoptStart, nonoptEnd, opts, nonopts)
      ensures nonoptStart != -1 ==> nonoptEnd != -1
    {
      ghost var cur := nargv[..];
      if nonoptStart != -1 && nonoptEnd == -1 {
        nonoptEnd := optind;
        assert nargv[..] == cur;
      }
    }

    /** An element that is neither `--` nor a cluster ending in a dash is read with its argument. */
    method TakeOne()
      requires Arranged(nargv[..], orig, first, optind, nonoptStart, nonoptEnd, opts, nonopts) && place == 0
      requires syntax.Unclassified(orig, first, opts, nonopts, optind) && (nonoptStart != -1 ==> nonoptEnd != -1)
      requires optind < nargv.Length && nargv[optind] == orig[optind] && !syntax.IsNonOption(orig[optind])
      requires !syntax.IsEnd(orig[optind]) && !syntax.endsInDash(orig[optind])
      modifies this`optind, this`opts
      ensures Valid() && optind == old(optind) + syntax.Width(orig, old(optind))
      ensures opts == old(opts) + orig[old(optind)..optind]
    {
      var width := if syntax.takesNext(nargv[optind]) && optind + 1 < nargv.Length then 2 else 1;
      OneClassified(syntax, orig, first, opts, nonopts, optind);
      Take(width);
    }

    /** The non-options in front of the next option are skipped. */
    method SkipNonOptions()
      requires Valid() && place == 0 && optind >= 0
      modifies this`optind, this`nonoptStart, this`nonoptEnd, this`nonopts, nargv
      ensures Valid() && 0 <= old(optind) <= |orig| && optind == syntax.Next(orig, old(optind))
      ensures optind < nargv.Length ==> nargv[optind] == orig[optind] && !syntax.IsNonOption(orig[optind])
    {
      ghost var from := optind;
      Unread(nargv[..], orig, first, optind, nonoptStart, nonoptEnd, opts, nonopts);
      while optind < nargv.Length && syntax.IsNonOption(nargv[optind])
        invariant Valid() && 0 <= from <= |orig| && 0 <= optind
        invariant syntax.Next(orig, from) == syntax.Next(orig, optind)
        invariant optind < nargv.Length ==> nargv[optind] == orig[optind]
        decreases nargv.Length - optind
      {
        Skip();
      }
    }

    /** Between two elements: on to the next option, or to the end of the scan. */
    method Advance() returns (ended: bool)
      requires Valid() && place == 0
      modifies this`optind, this`nonoptStart, this`nonoptEnd, this`opts, this`nonopts, nargv
      ensures ended ==> Finished() && !syntax.CutShort(orig, first)
      ensures !ended ==> Valid() && 0 <= old(optind) <= |orig| && optind == syntax.Next(orig, old(optind)) < |orig|
      ensures !ended ==> !syntax.IsNonOption(orig[optind]) && !syntax.IsEnd(orig[optind])
      ensures !ended ==> opts == old(opts) && nargv[optind] == orig[optind]
    {
      SkipNonOptions();
      ended := true;
      if optind >= nargv.Length {
        assert opts + [] == opts && nonopts + [] == nonopts;
        Finish();
      } else if syntax.IsEnd(nargv[optind]) {
        TakeEnd();
      } else {
        ended := false;
      }
    }

    /** One call of getopt_internal: unless a cluster is being read, non-options are skipped up to the
        next option; then one letter is read, and the last letter, at `at`, takes the element. */
    method GetoptInternal() returns (r: Result, ghost at: int)
      requires Valid()
      modifies this`optind, this`nonoptStart, this`nonoptEnd, this`place, this`opts, this`nonopts, nargv
      ensures r == Letter ==>
                && Valid() && 0 <= old(optind) <= |orig| && 0 <= at < |orig|
                && at == if old(place) > 0 then old(optind) else syntax.Next(orig, old(optind))
      ensures r == Letter && old(place) + 1 < syntax.calls(orig[at]) ==>
                optind == at && place == old(place) + 1 && opts == old(opts)
      ensures r == Letter && old(place) + 1 >= syntax.calls(orig[at]) ==>
                place == 0 && optind == at + syntax.Width(orig, at) && opts == old(opts) + orig[at..optind]
      ensures r == End ==> Finished() && !syntax.CutShort(orig, first)
      ensures r == Dash ==> Interrupted()
    {
      if place == 0 {
        var ended := Advance();
        if ended {
          at := optind;
          r := End;
          return;
        }
      } else {
        Unread(nargv[..], orig, first, optind, nonoptStart, nonoptEnd, opts, nonopts);
      }
      at := optind;
      r := ReadLetter();
    }

    /** Letters that are still to be read of the element at `optind`. */
    ghost function Left(): int
      reads this
    {
      if 0 <= optind < |orig| then syntax.calls(orig[optind]) + 1 - place else 0
    }

    /** A whole scan: the caller asks for options until there are no more. */
    method Scan()
      requires Valid()
      modifies this`optind, this`nonoptStart, this`nonoptEnd, this`place, this`opts, this`nonopts, nargv
      ensures if syntax.CutShort(orig, first) then Interrupted() else Finished()
      ensures Finished() <==> !syntax.CutShort(orig, first) || syntax.NonOptions(orig, first) == []
    {
      var r := Letter;
      while r == Letter
        invariant r == Letter ==> Valid()
        invariant r == End ==> Finished() && !syntax.CutShort(orig, first)
        invariant r == Dash ==> Interrupted()
        decreases r == Letter, nargv.Length - optind, Left()
      {
        ghost var at;
        r, at := GetoptInternal();
      }
      if r == Dash && syntax.NonOptions(orig, first) == [] {
        LaidBehind(orig, first, optind, syntax.Options(orig, first), []);
      }
    }
  }
}

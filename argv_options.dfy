/** The command-line options of servor.js (servor.js:22-70): the defaults, the
    flag loop that reads `--kebab-case value` pairs into the options and marks
    their positions, the removal of the marked arguments, and the positional
    overrides that follow. */
module ArgvOptions {
  import opened JsObject

  /** An option's value: the defaults are text, numbers and a flag; anything read
      from the command line is text. */
  datatype OptValue = Str(text: string) | Num(n: int) | Flag(on: bool)

  predicate IsLowerAscii(c: char)
  {
    'a' <= c <= 'z'
  }

  predicate IsUpperAscii(c: char)
  {
    'A' <= c <= 'Z'
  }

  function UpperAscii(c: char): char
    requires IsLowerAscii(c)
  {
    (c as int - 32) as char
  }

  function LowerAscii(c: char): char
    requires IsUpperAscii(c)
  {
    (c as int + 32) as char
  }

  /** The replacement of servor.js:36-38, scanning left to right: a `-` followed
      by a lower-case ASCII letter becomes that letter in upper case; every other
      character stays. Text without `-` is left as it is. */
  function Camel(s: string): (r: string)
    ensures |r| <= |s|
    ensures '-' !in s ==> r == s
  {
    if s == [] then []
    else if |s| >= 2 && s[0] == '-' && IsLowerAscii(s[1]) then [UpperAscii(s[1])] + Camel(s[2..])
    else
      assert s == [s[0]] + s[1..];
      [s[0]] + Camel(s[1..])
  }

  /** The flag spelling of an option key: each upper-case ASCII letter becomes
      `-` and the letter in lower case. */
  function Kebab(k: string): string
  {
    if k == [] then []
    else (if IsUpperAscii(k[0]) then ['-', LowerAscii(k[0])] else [k[0]]) + Kebab(k[1..])
  }

  /** Every option key without `-` is reached by its kebab-case flag: `--a-b-c`
      is looked up as `aBC`. */
  lemma {:induction false} CamelKebab(k: string)
    requires '-' !in k
    ensures Camel(Kebab(k)) == k
  {
    if k != [] {
      var s := Kebab(k);
      assert '-' !in k[1..];
      CamelKebab(k[1..]);
      if IsUpperAscii(k[0]) {
        assert s == ['-', LowerAscii(k[0])] + Kebab(k[1..]);
        assert s[2..] == Kebab(k[1..]);
        assert UpperAscii(LowerAscii(k[0])) == k[0];
      } else {
        assert s == [k[0]] + Kebab(k[1..]);
        assert s[1..] == Kebab(k[1..]);
        assert k == [k[0]] + k[1..];
      }
    }
  }

  /** `arg.indexOf('--') === 0`. */
  predicate IsFlag(arg: string)
  {
    |arg| >= 2 && arg[0] == '-' && arg[1] == '-'
  }

  /** `arg.indexOf('--') !== -1`. */
  predicate HasDoubleDash(arg: string)
  {
    exists i :: 0 <= i < |arg| - 1 && arg[i] == '-' && arg[i + 1] == '-'
  }

  /** The option key a flag names. */
  function Key(arg: string): string
    requires IsFlag(arg)
  {
    Camel(arg[2..])
  }

  /** `typeof options[key] !== 'undefined'`. */
  predicate Known(opts: map<string, OptValue>, key: string)
  {
    key in opts || key in Inherited
  }

  /** `options[key] = value`; assigning text to `__proto__` changes nothing. */
  function Assign(opts: map<string, OptValue>, key: string, value: string): (r: map<string, OptValue>)
    requires Known(opts, key)
    ensures r.Keys <= opts.Keys + Inherited && opts.Keys <= r.Keys
    ensures key != Proto ==> key in r && r[key] == Str(value)
    ensures forall k :: k in opts && k != key ==> r[k] == opts[k]
  {
    if key == Proto then opts else opts[key := Str(value)]
  }

  /** The flag at `i` takes the next argument as its value (servor.js:40-44). */
  predicate TakesValue(argv: seq<string>, i: nat, opts: map<string, OptValue>)
    requires i < |argv|
  {
    IsFlag(argv[i]) && Known(opts, Key(argv[i])) && i + 1 < |argv| && !HasDoubleDash(argv[i + 1])
  }

  /** What the flag loop does from position `i` on: the options it ends with and
      the positions it marks. */
  function Scan(argv: seq<string>, i: nat, opts: map<string, OptValue>): (r: (map<string, OptValue>, set<nat>))
    ensures forall j :: j in r.1 ==> i <= j < |argv|
    ensures r.0.Keys <= opts.Keys + Inherited && opts.Keys <= r.0.Keys
    decreases |argv| - i
  {
    if i >= |argv| then (opts, {})
    else if IsFlag(argv[i]) then
      if TakesValue(argv, i, opts) then
        var r := Scan(argv, i + 2, Assign(opts, Key(argv[i]), argv[i + 1]));
        (r.0, r.1 + {i, i + 1})
      else
        var r := Scan(argv, i + 1, opts);
        (r.0, r.1 + {i})
    else Scan(argv, i + 1, opts)
  }

  /** A flag holds `--`, so it is never taken as a value. */
  lemma FlagHasDoubleDash(arg: string)
    requires IsFlag(arg)
    ensures HasDoubleDash(arg)
  {
    assert arg[0] == '-' && arg[1] == '-';
  }

  /** Assigning an option keeps which keys are known. */
  lemma AssignKeepsKnown(opts: map<string, OptValue>, key: string, value: string, k: string)
    requires Known(opts, key)
    ensures Known(Assign(opts, key, value), k) <==> Known(opts, k)
  {
  }

  /** The positions the flag loop marks from `i` on are exactly the flags and
      the arguments right after a flag that names a known option and that hold
      no `--`. So the argument after an unknown flag, or after a flag at the
      end of its value, stays in place. */
  lemma {:induction false} MarkedExactly(argv: seq<string>, i: nat, opts: map<string, OptValue>)
    ensures forall j :: i <= j < |argv| ==>
      (j in Scan(argv, i, opts).1 <==> IsFlag(argv[j]) || (i < j && TakesValue(argv, j - 1, opts)))
    decreases |argv| - i
  {
    if i < |argv| {
      var marks := Scan(argv, i, opts).1;
      if IsFlag(argv[i]) && TakesValue(argv, i, opts) {
        var opts' := Assign(opts, Key(argv[i]), argv[i + 1]);
        var rest := Scan(argv, i + 2, opts').1;
        MarkedExactly(argv, i + 2, opts');
        assert marks == rest + {i, i + 1};
        forall j | i + 2 <= j < |argv|
          ensures j in marks <==> IsFlag(argv[j]) || TakesValue(argv, j - 1, opts)
        {
          if j == i + 2 {
            if IsFlag(argv[i + 1]) {
              FlagHasDoubleDash(argv[i + 1]);
            }
            assert !TakesValue(argv, i + 1, opts);
          } else if IsFlag(argv[j - 1]) {
            AssignKeepsKnown(opts, Key(argv[i]), argv[i + 1], Key(argv[j - 1]));
            assert TakesValue(argv, j - 1, opts') <==> TakesValue(argv, j - 1, opts);
          }
        }
      } else {
        var rest := Scan(argv, i + 1, opts).1;
        MarkedExactly(argv, i + 1, opts);
        assert IsFlag(argv[i]) ==> marks == rest + {i};
        assert !IsFlag(argv[i]) ==> marks == rest;
        assert !TakesValue(argv, i, opts);
      }
    } else {
      assert Scan(argv, i, opts).1 == {};
    }
  }

  /** Assigning an option keeps which flags take a value. */
  lemma TakesValueKept(argv: seq<string>, l: nat, opts: map<string, OptValue>, key: string, value: string)
    requires l < |argv| && Known(opts, key)
    ensures TakesValue(argv, l, Assign(opts, key, value)) <==> TakesValue(argv, l, opts)
  {
    if IsFlag(argv[l]) {
      AssignKeepsKnown(opts, key, value, Key(argv[l]));
    }
  }

  /** An option that no value-taking flag from `i` on names keeps its value: a
      flag naming it whose next argument is missing or holds `--` is only
      marked. */
  lemma {:induction false} UnnamedOptionKept(argv: seq<string>, i: nat, opts: map<string, OptValue>, k: string)
    requires k in opts
    requires forall j :: i <= j < |argv| && TakesValue(argv, j, opts) ==> Key(argv[j]) != k
    ensures k in Scan(argv, i, opts).0 && Scan(argv, i, opts).0[k] == opts[k]
    decreases |argv| - i
  {
    if i < |argv| {
      if IsFlag(argv[i]) && TakesValue(argv, i, opts) {
        var opts' := Assign(opts, Key(argv[i]), argv[i + 1]);
        forall j | i + 2 <= j < |argv| && TakesValue(argv, j, opts')
          ensures Key(argv[j]) != k
        {
          TakesValueKept(argv, j, opts, Key(argv[i]), argv[i + 1]);
        }
        UnnamedOptionKept(argv, i + 2, opts', k);
      } else {
        UnnamedOptionKept(argv, i + 1, opts, k);
      }
    }
  }

  /** The last value-taking flag naming a known option sets that option to the
      argument after it, and both positions are marked. */
  lemma {:induction false} LastFlagSetsValue(argv: seq<string>, i: nat, opts: map<string, OptValue>, j: nat)
    requires i <= j && j + 1 < |argv| && IsFlag(argv[j]) && !HasDoubleDash(argv[j + 1])
    requires Key(argv[j]) in opts && Key(argv[j]) != Proto
    requires forall l :: j < l < |argv| && TakesValue(argv, l, opts) ==> Key(argv[l]) != Key(argv[j])
    ensures var r := Scan(argv, i, opts);
      Key(argv[j]) in r.0 && r.0[Key(argv[j])] == Str(argv[j + 1]) && j in r.1 && j + 1 in r.1
    decreases j - i
  {
    var k := Key(argv[j]);
    if i == j {
      assert TakesValue(argv, i, opts);
      var opts' := Assign(opts, k, argv[j + 1]);
      forall l | j + 2 <= l < |argv| && TakesValue(argv, l, opts')
        ensures Key(argv[l]) != k
      {
        TakesValueKept(argv, l, opts, k, argv[j + 1]);
      }
      UnnamedOptionKept(argv, j + 2, opts', k);
    } else if IsFlag(argv[i]) && TakesValue(argv, i, opts) {
      var opts' := Assign(opts, Key(argv[i]), argv[i + 1]);
      forall l | j < l < |argv| && TakesValue(argv, l, opts')
        ensures Key(argv[l]) != k
      {
        TakesValueKept(argv, l, opts, Key(argv[i]), argv[i + 1]);
      }
      LastFlagSetsValue(argv, i + 2, opts', j);
    } else {
      LastFlagSetsValue(argv, i + 1, opts, j);
    }
  }

  /** `--name` for a name without `-` is a flag naming `name`. */
  lemma FlagFor(name: string)
    requires '-' !in name
    ensures IsFlag("--" + name) && HasDoubleDash("--" + name) && Key("--" + name) == name
  {
    var f := "--" + name;
    assert f[0] == '-' && f[1] == '-';
    assert f[2..] == name;
  }

  /** `node servor --p --q v`, as in `node servor --port --root www`: `--p` has
      no value, so option `p` keeps its default, and `q` is set to `v`. */
  lemma ValuelessFlagKeepsDefault(opts: map<string, OptValue>, node: string, script: string, p: string, q: string, v: string)
    requires p in opts && q in opts && p != q && q != Proto
    requires '-' !in p && '-' !in q && '-' !in v
    ensures var r := Scan([node, script, "--" + p, "--" + q, v], 2, opts);
      r.0[p] == opts[p] && r.0[q] == Str(v)
  {
    var argv := [node, script, "--" + p, "--" + q, v];
    FlagFor(p);
    FlagFor(q);
    assert !HasDoubleDash(v);
    assert !IsFlag(v);
    assert !TakesValue(argv, 2, opts);
    assert !TakesValue(argv, 4, opts);
    LastFlagSetsValue(argv, 2, opts, 3);
    UnnamedOptionKept(argv, 2, opts, p);
  }

  function SetOf(s: seq<nat>): set<nat>
  {
    set x | x in s
  }

  predicate Descending(s: seq<nat>)
  {
    forall a, b :: 0 <= a < b < |s| ==> s[a] > s[b]
  }

  /** The loop of servor.js:31-51: `toRemove.unshift` puts each marked position in
      front, so the list ends strictly decreasing. */
  method ParseFlags(argv: seq<string>, defaults: map<string, OptValue>) returns (opts: map<string, OptValue>, toRemove: seq<nat>)
    ensures (opts, SetOf(toRemove)) == Scan(argv, 2, defaults)
    ensures Descending(toRemove)
    ensures forall t :: 0 <= t < |toRemove| ==> 2 <= toRemove[t] < |argv|
  {
    opts, toRemove := defaults, [];
    var i := 2;
    assert SetOf([]) == {};
    while i < |argv|
      invariant 2 <= i
      invariant Progress(argv, defaults, i, opts, toRemove)
      decreases |argv| - i
    {
      if IsFlag(argv[i]) {
        var name := Camel(argv[i][2..]);
        if Known(opts, name) && i + 1 < |argv| && !HasDoubleDash(argv[i + 1]) {
          // both positions are put in front, the flag's first
          StepValue(argv, defaults, i, opts, toRemove);
          opts := Assign(opts, name, argv[i + 1]);
          toRemove := [i + 1] + ([i] + toRemove);
          i := i + 2;
        } else {
          StepFlag(argv, defaults, i, opts, toRemove);
          toRemove := [i] + toRemove;
          i := i + 1;
        }
      } else {
        StepOther(argv, defaults, i, opts, toRemove);
        i := i + 1;
      }
    }
    ProgressDone(argv, defaults, i, opts, toRemove);
  }

  /** What the flag loop has done once it reaches position `i`: the positions it
      marked so far, in descending order, and the options it holds, account with
      what is left to scan for the scan of the whole command line. */
  predicate Progress(argv: seq<string>, defaults: map<string, OptValue>, i: nat,
                     opts: map<string, OptValue>, toRemove: seq<nat>)
  {
    (forall t :: 0 <= t < |toRemove| ==> 2 <= toRemove[t] < i && toRemove[t] < |argv|) &&
    Descending(toRemove) &&
    Scan(argv, 2, defaults).0 == Scan(argv, i, opts).0 &&
    Scan(argv, 2, defaults).1 == Scan(argv, i, opts).1 + SetOf(toRemove)
  }

  lemma StepValue(argv: seq<string>, defaults: map<string, OptValue>, i: nat,
                  opts: map<string, OptValue>, toRemove: seq<nat>)
    requires i < |argv| && TakesValue(argv, i, opts) && Progress(argv, defaults, i, opts, toRemove)
    ensures Progress(argv, defaults, i + 2, Assign(opts, Key(argv[i]), argv[i + 1]), [i + 1] + ([i] + toRemove))
  {
    ScanTakesValue(argv, i, opts);
    SetOfCons(i, toRemove);
    SetOfCons(i + 1, [i] + toRemove);
    DescendingCons(i, toRemove);
    DescendingCons(i + 1, [i] + toRemove);
  }

  lemma StepFlag(argv: seq<string>, defaults: map<string, OptValue>, i: nat,
                 opts: map<string, OptValue>, toRemove: seq<nat>)
    requires i < |argv| && IsFlag(argv[i]) && !TakesValue(argv, i, opts)
    requires Progress(argv, defaults, i, opts, toRemove)
    ensures Progress(argv, defaults, i + 1, opts, [i] + toRemove)
  {
    ScanSkipsFlag(argv, i, opts);
    SetOfCons(i, toRemove);
    DescendingCons(i, toRemove);
  }

  lemma StepOther(argv: seq<string>, defaults: map<string, OptValue>, i: nat,
                  opts: map<string, OptValue>, toRemove: seq<nat>)
    requires i < |argv| && !IsFlag(argv[i]) && Progress(argv, defaults, i, opts, toRemove)
    ensures Progress(argv, defaults, i + 1, opts, toRemove)
  {
    ScanSkipsArgument(argv, i, opts);
  }

  lemma ProgressDone(argv: seq<string>, defaults: map<string, OptValue>, i: nat,
                     opts: map<string, OptValue>, toRemove: seq<nat>)
    requires i >= |argv| && Progress(argv, defaults, i, opts, toRemove)
    ensures (opts, SetOf(toRemove)) == Scan(argv, 2, defaults)
    ensures Descending(toRemove)
    ensures forall t :: 0 <= t < |toRemove| ==> 2 <= toRemove[t] < |argv|
  {
    assert Scan(argv, i, opts) == (opts, {});
    var total := Scan(argv, 2, defaults);
    assert total.0 == opts;
    assert total.1 == {} + SetOf(toRemove) == SetOf(toRemove);
    assert total == (total.0, total.1);
  }

  /** A position above every one in a descending list keeps it descending in front. */
  lemma DescendingCons(x: nat, s: seq<nat>)
    requires Descending(s) && forall t :: 0 <= t < |s| ==> s[t] < x
    ensures Descending([x] + s)
  {
    forall a, b | 0 <= a < b < |[x] + s|
      ensures ([x] + s)[a] > ([x] + s)[b]
    {
      assert ([x] + s)[b] == s[b - 1];
      if a > 0 {
        assert ([x] + s)[a] == s[a - 1];
      }
    }
  }

  lemma SetOfCons(x: nat, s: seq<nat>)
    ensures SetOf([x] + s) == {x} + SetOf(s)
  {
    assert forall y :: y in [x] + s <==> y == x || y in s;
  }

  /** A flag that takes a value: both positions are marked and scanning goes on
      after the value. */
  lemma ScanTakesValue(argv: seq<string>, i: nat, opts: map<string, OptValue>)
    requires i < |argv| && TakesValue(argv, i, opts)
    ensures var r := Scan(argv, i + 2, Assign(opts, Key(argv[i]), argv[i + 1]));
      Scan(argv, i, opts).0 == r.0 && Scan(argv, i, opts).1 == r.1 + {i, i + 1}
  {
  }

  /** A flag without a value: only its position is marked. */
  lemma ScanSkipsFlag(argv: seq<string>, i: nat, opts: map<string, OptValue>)
    requires i < |argv| && IsFlag(argv[i]) && !TakesValue(argv, i, opts)
    ensures Scan(argv, i, opts).0 == Scan(argv, i + 1, opts).0
    ensures Scan(argv, i, opts).1 == Scan(argv, i + 1, opts).1 + {i}
  {
  }

  /** Any other argument is passed over. */
  lemma ScanSkipsArgument(argv: seq<string>, i: nat, opts: map<string, OptValue>)
    requires i < |argv| && !IsFlag(argv[i])
    ensures Scan(argv, i, opts) == Scan(argv, i + 1, opts)
  {
  }

  /** The arguments from position `from` on whose positions are not in `marks`. */
  function Keep(s: seq<string>, marks: set<nat>, from: nat): seq<string>
    requires from <= |s|
    decreases |s| - from
  {
    if from == |s| then [] else (if from in marks then [] else [s[from]]) + Keep(s, marks, from + 1)
  }

  /** Unmarked positions are kept in order. */
  lemma {:induction false} KeepPrefix(s: seq<string>, marks: set<nat>, from: nat, n: nat)
    requires from <= n <= |s|
    requires forall m :: m in marks ==> m < from || m >= n
    ensures Keep(s, marks, from) == s[from..n] + Keep(s, marks, n)
    decreases n - from
  {
    if from < n {
      KeepPrefix(s, marks, from + 1, n);
      assert from !in marks;
      assert Keep(s, marks, from) == [s[from]] + Keep(s, marks, from + 1);
      assert s[from..n] == [s[from]] + s[from + 1..n];
    } else {
      assert s[from..n] == [];
    }
  }

  /** Only the marks from `from` on matter. */
  lemma {:induction false} KeepSame(s: seq<string>, m1: set<nat>, m2: set<nat>, from: nat)
    requires from <= |s|
    requires forall j :: from <= j < |s| ==> (j in m1 <==> j in m2)
    ensures Keep(s, m1, from) == Keep(s, m2, from)
    decreases |s| - from
  {
    if from < |s| {
      KeepSame(s, m1, m2, from + 1);
    }
  }

  /** Removing a position below every one already removed is a splice at that
      same position. */
  lemma SpliceStep(s: seq<string>, marks: set<nat>, k: nat)
    requires k < |s| && k !in marks
    requires forall m :: m in marks ==> m > k
    ensures k < |Keep(s, marks, 0)|
    ensures Keep(s, marks + {k}, 0) == Keep(s, marks, 0)[..k] + Keep(s, marks, 0)[k + 1..]
  {
    var pre, rest := s[..k], Keep(s, marks, k + 1);
    assert s[0..k] == pre;
    KeepPrefix(s, marks, 0, k);
    KeepPrefix(s, marks + {k}, 0, k);
    KeepSame(s, marks, marks + {k}, k + 1);
    assert Keep(s, marks, k) == [s[k]] + rest;
    assert Keep(s, marks + {k}, k) == rest;
    assert Keep(s, marks, 0) == pre + [s[k]] + rest;
    SliceAround(pre, s[k], rest);
  }

  lemma SliceAround(pre: seq<string>, x: string, rest: seq<string>)
    ensures (pre + [x] + rest)[..|pre|] == pre && (pre + [x] + rest)[|pre| + 1..] == rest
  {
  }

  /** The loop of servor.js:54-56: splicing the marked positions, largest first,
      removes exactly the marked arguments and keeps the rest in order. */
  method RemoveMarked(argv: seq<string>, toRemove: seq<nat>) returns (args: seq<string>)
    requires Descending(toRemove)
    requires forall t :: 0 <= t < |toRemove| ==> toRemove[t] < |argv|
    ensures args == Keep(argv, SetOf(toRemove), 0)
  {
    args := argv;
    KeepPrefix(argv, {}, 0, |argv|);
    assert argv[0..|argv|] == argv;
    assert SetOf(toRemove[..0]) == {};
    for t := 0 to |toRemove|
      invariant args == Keep(argv, SetOf(toRemove[..t]), 0)
    {
      var k := toRemove[t];
      var marks := SetOf(toRemove[..t]);
      assert toRemove[..t + 1] == toRemove[..t] + [k];
      assert SetOf(toRemove[..t + 1]) == marks + {k};
      SpliceStep(argv, marks, k);
      args := args[..k] + args[k + 1..];
    }
    assert toRemove[..|toRemove|] == toRemove;
  }

  /** The options before the command line is read (servor.js:22-28): the browser
      opens unless `--no-browser` is among the arguments. */
  function Defaults(argv: seq<string>): (opts: map<string, OptValue>)
    ensures opts.Keys == {"root", "fallback", "port", "reloadPort", "browser"}
    ensures opts["browser"] == Flag("--no-browser" !in argv)
  {
    map["root" := Str("."), "fallback" := Str("index.html"), "port" := Num(8080), "reloadPort" := Num(5000),
        "browser" := Flag("--no-browser" !in argv)]
  }

  /** The options positional arguments 2 to 5 override, in order. */
  const Positional: seq<string> := ["root", "fallback", "port", "reloadPort"]

  /** servor.js:22-70: the flags set options, their arguments are removed, and
      the remaining arguments 2 to 5 override `root`, `fallback`, `port` and
      `reloadPort`. The node binary and the script path stay in front. */
  method ParseOptions(argv: seq<string>) returns (opts: map<string, OptValue>, args: seq<string>)
    ensures var flags := Scan(argv, 2, Defaults(argv));
      args == Keep(argv, flags.1, 0) &&
      opts.Keys == flags.0.Keys &&
      (forall p :: 0 <= p < |Positional| ==>
        opts[Positional[p]] == if p + 2 < |args| then Str(args[p + 2]) else flags.0[Positional[p]]) &&
      (forall k :: k in flags.0 && k !in Positional ==> opts[k] == flags.0[k])
    ensures |argv| >= 2 ==> |args| >= 2 && args[..2] == argv[..2]
  {
    var toRemove;
    opts, toRemove := ParseFlags(argv, Defaults(argv));
    args := RemoveMarked(argv, toRemove);
    ghost var flags := Scan(argv, 2, Defaults(argv));
    if |argv| >= 2 {
      KeepPrefix(argv, flags.1, 0, 2);
    }
    PositionalKnown(argv);
    opts := ApplyPositional(opts, args);
  }

  /** servor.js:60-70: arguments 2 to 5, where present, override `root`,
      `fallback`, `port` and `reloadPort`; every other option is left alone. */
  method ApplyPositional(base: map<string, OptValue>, args: seq<string>) returns (opts: map<string, OptValue>)
    requires forall p :: 0 <= p < |Positional| ==> Positional[p] in base
    ensures opts.Keys == base.Keys
    ensures forall p :: 0 <= p < |Positional| ==>
      opts[Positional[p]] == if p + 2 < |args| then Str(args[p + 2]) else base[Positional[p]]
    ensures forall k :: k in base && k !in Positional ==> opts[k] == base[k]
  {
    opts := Override(base, args, 0, base);
    opts := Override(opts, args, 1, base);
    opts := Override(opts, args, 2, base);
    opts := Override(opts, args, 3, base);
    OverriddenAll(opts, base, args);
  }

  /** Every positional option is among the options the flag loop ends with. */
  lemma PositionalKnown(argv: seq<string>)
    ensures forall p :: 0 <= p < |Positional| ==> Positional[p] in Scan(argv, 2, Defaults(argv)).0
  {
    var d := Defaults(argv);
    assert forall p :: 0 <= p < |Positional| ==> Positional[p] in d;
  }

  lemma OverriddenAll(opts: map<string, OptValue>, base: map<string, OptValue>, args: seq<string>)
    requires OverriddenUpTo(opts, base, args, |Positional|)
    ensures opts.Keys == base.Keys
    ensures forall p :: 0 <= p < |Positional| ==>
      opts[Positional[p]] == if p + 2 < |args| then Str(args[p + 2]) else base[Positional[p]]
    ensures forall k :: k in base && k !in Positional ==> opts[k] == base[k]
  {
    assert Positional[..|Positional|] == Positional;
  }

  /** One of servor.js:60-70: argument `n + 2`, when present, overrides the
      option `Positional[n]`. */
  method Override(opts: map<string, OptValue>, args: seq<string>, n: nat, ghost base: map<string, OptValue>)
    returns (r: map<string, OptValue>)
    requires n < |Positional| && forall p :: 0 <= p < |Positional| ==> Positional[p] in base
    requires n == 0 ==> opts == base
    requires n > 0 ==> OverriddenUpTo(opts, base, args, n)
    ensures OverriddenUpTo(r, base, args, n + 1)
  {
    r := opts;
    if |args| > n + 2 {
      r := opts[Positional[n] := Str(args[n + 2])];
    }
  }

  /** The first `n` positional overrides have been applied to `base`. */
  predicate OverriddenUpTo(opts: map<string, OptValue>, base: map<string, OptValue>, args: seq<string>, n: nat)
    requires n <= |Positional|
  {
    opts.Keys == base.Keys &&
    (forall p :: 0 <= p < n ==>
      Positional[p] in base &&
      opts[Positional[p]] == if p + 2 < |args| then Str(args[p + 2]) else base[Positional[p]]) &&
    (forall k :: k in base && k !in Positional[..n] ==> opts[k] == base[k])
  }
}

/**
 * `cn`: the class-name helper. Non-empty strings are kept, every key of an
 * object argument whose value is truthy is kept, and everything else
 * (booleans, `undefined`, `null`, "") is skipped; the kept names are joined
 * with single spaces.
 */
module ClassNames {
  import opened JsText

  /** An entry of `Object.entries(arg)`: the key, and whether its value is truthy. */
  datatype Entry = Entry(key: string, truthy: bool)

  /** An argument: `string | boolean | undefined | null | Record<string, unknown>`. */
  datatype ClassArg = Str(s: string) | Bool(b: bool) | Undefined | Null | Obj(entries: seq<Entry>)

  /** `!arg`: the falsy arguments. An object is truthy even when it has no keys. */
  predicate Falsy(arg: ClassArg) {
    match arg
    case Str(s) => s == ""
    case Bool(b) => !b
    case Undefined => true
    case Null => true
    case Obj(_) => false
  }

  predicate AllFalsy(args: seq<ClassArg>) {
    forall i :: 0 <= i < |args| ==> Falsy(args[i])
  }

  /** The keys whose values are truthy, in entry order. */
  function TruthyKeys(entries: seq<Entry>): seq<string>
    decreases |entries|
  {
    if entries == [] then []
    else
      var last := entries[|entries| - 1];
      TruthyKeys(entries[..|entries| - 1]) + (if last.truthy then [last.key] else [])
  }

  /** The names one argument contributes. */
  function ArgClasses(arg: ClassArg): seq<string> {
    if Falsy(arg) then []
    else match arg
      case Str(s) => [s]
      case Obj(entries) => TruthyKeys(entries)
      case _ => []
  }

  /** The names all arguments contribute, in argument order. */
  function Classes(args: seq<ClassArg>): (r: seq<string>)
    ensures AllFalsy(args) ==> r == []
    decreases |args|
  {
    if args == [] then [] else Classes(args[..|args| - 1]) + ArgClasses(args[|args| - 1])
  }

  /** `cn(...args)`, pushing names in the two nested loops and joining at the end. */
  method Cn(args: seq<ClassArg>) returns (r: string)
    ensures r == Join(Classes(args), " ")
  {
    var classes: seq<string> := [];
    for i := 0 to |args|
      invariant classes == Classes(args[..i])
    {
      var arg := args[i];
      ClassesPrefixStep(args, i);
      if Falsy(arg) {
        continue;
      }
      if arg.Str? {
        classes := classes + [arg.s];
      } else if arg.Obj? {
        var entries := arg.entries;
        ghost var before := classes;
        for j := 0 to |entries|
          invariant classes == before + TruthyKeys(entries[..j])
        {
          assert entries[..j + 1][..j] == entries[..j];
          if entries[j].truthy {
            classes := classes + [entries[j].key];
          }
        }
        assert entries[..|entries|] == entries;
      }
    }
    assert args[..|args|] == args;
    r := Join(classes, " ");
  }

  /** The names of one more argument of a prefix come after the prefix's names. */
  lemma ClassesPrefixStep(args: seq<ClassArg>, i: int)
    requires 0 <= i < |args|
    ensures Classes(args[..i + 1]) == Classes(args[..i]) + ArgClasses(args[i])
  {
    TakeSnoc(args, i);
    ClassesSnoc(args[..i], args[i]);
  }

  lemma TakeSnoc<T>(s: seq<T>, i: int)
    requires 0 <= i < |s|
    ensures s[..i + 1] == s[..i] + [s[i]]
  {
  }

  /** A key is kept exactly when some entry with that key has a truthy value. */
  lemma {:induction false} TruthyKeysMembers(entries: seq<Entry>, x: string)
    ensures x in TruthyKeys(entries) <==> exists j :: 0 <= j < |entries| && entries[j] == Entry(x, true)
    decreases |entries|
  {
    if entries != [] {
      var init := entries[..|entries| - 1];
      TruthyKeysMembers(init, x);
      if exists j :: 0 <= j < |entries| && entries[j] == Entry(x, true) {
        var j :| 0 <= j < |entries| && entries[j] == Entry(x, true);
        if j < |entries| - 1 {
          assert init[j] == Entry(x, true);
        }
      }
      if exists j :: 0 <= j < |init| && init[j] == Entry(x, true) {
        var j :| 0 <= j < |init| && init[j] == Entry(x, true);
        assert entries[j] == Entry(x, true);
      }
    }
  }

  /** The names an argument gives: itself when it is a non-empty string, a truthy key of an object. */
  ghost predicate Contributes(arg: ClassArg, x: string) {
    (arg == Str(x) && x != "") ||
    (arg.Obj? && exists j :: 0 <= j < |arg.entries| && arg.entries[j] == Entry(x, true))
  }

  lemma ArgClassesMembers(arg: ClassArg, x: string)
    ensures x in ArgClasses(arg) <==> Contributes(arg, x)
  {
    if arg.Obj? {
      TruthyKeysMembers(arg.entries, x);
    }
  }

  /** A name is in the result exactly when some argument contributes it; booleans never do. */
  lemma {:induction false} ClassesMembers(args: seq<ClassArg>, x: string)
    ensures x in Classes(args) <==> exists i :: 0 <= i < |args| && Contributes(args[i], x)
    decreases |args|
  {
    if args != [] {
      var init, last := args[..|args| - 1], args[|args| - 1];
      ClassesMembers(init, x);
      ArgClassesMembers(last, x);
      InConcat(Classes(init), ArgClasses(last), x);
      SomeContributesSplit(args, init, x);
    }
  }

  lemma InConcat<T>(u: seq<T>, v: seq<T>, x: T)
    ensures x in u + v <==> x in u || x in v
  {
  }

  /** Some argument contributes `x` iff one before the last does, or the last does. */
  lemma SomeContributesSplit(args: seq<ClassArg>, init: seq<ClassArg>, x: string)
    requires args != [] && init == args[..|args| - 1]
    ensures (exists i :: 0 <= i < |args| && Contributes(args[i], x)) <==>
      (exists i :: 0 <= i < |init| && Contributes(init[i], x)) || Contributes(args[|args| - 1], x)
  {
    if exists i :: 0 <= i < |args| && Contributes(args[i], x) {
      var i :| 0 <= i < |args| && Contributes(args[i], x);
      if i < |init| {
        assert init[i] == args[i];
      }
    }
    if exists i :: 0 <= i < |init| && Contributes(init[i], x) {
      var i :| 0 <= i < |init| && Contributes(init[i], x);
      assert args[i] == init[i];
    }
  }


  /** Appending one argument appends its names. */
  lemma ClassesSnoc(a: seq<ClassArg>, x: ClassArg)
    ensures Classes(a + [x]) == Classes(a) + ArgClasses(x)
  {
    assert (a + [x])[..|a|] == a;
  }

  /** The step of ClassesAppend: from `b` to `b + [x]`. */
  lemma ClassesAppendStep(a: seq<ClassArg>, b: seq<ClassArg>, x: ClassArg)
    requires Classes(a + b) == Classes(a) + Classes(b)
    ensures Classes(a + (b + [x])) == Classes(a) + Classes(b + [x])
  {
    ConcatAssoc(a, b, [x]);
    ClassesSnoc(a + b, x);
    ClassesSnoc(b, x);
    ConcatAssoc(Classes(a), Classes(b), ArgClasses(x));
  }

  lemma ConcatAssoc<T>(u: seq<T>, v: seq<T>, w: seq<T>)
    ensures (u + v) + w == u + (v + w)
  {
  }

  /** Names keep argument order: the names of `a` then `b` are those of `a` followed by those of `b`. */
  lemma {:induction false} ClassesAppend(a: seq<ClassArg>, b: seq<ClassArg>)
    ensures Classes(a + b) == Classes(a) + Classes(b)
    decreases |b|
  {
    if b == [] {
      assert a + b == a;
    } else {
      var init, last := b[..|b| - 1], b[|b| - 1];
      assert b == init + [last];
      ClassesAppend(a, init);
      ClassesAppendStep(a, init, last);
    }
  }

  /** `cn("a", false, undefined, null, "", "b")` is "a b". */
  lemma SkipsFalsyArguments()
    ensures Join(Classes([Str("a"), Bool(false), Undefined, Null, Str(""), Str("b")]), " ") == "a b"
  {
    var a0: seq<ClassArg> := [];
    ClassesSnoc(a0, Str("a"));
    var a1 := a0 + [Str("a")];
    ClassesSnoc(a1, Bool(false));
    var a2 := a1 + [Bool(false)];
    ClassesSnoc(a2, Undefined);
    var a3 := a2 + [Undefined];
    ClassesSnoc(a3, Null);
    var a4 := a3 + [Null];
    ClassesSnoc(a4, Str(""));
    var a5 := a4 + [Str("")];
    ClassesSnoc(a5, Str("b"));
    var a6 := a5 + [Str("b")];
    assert Classes(a6) == ["a", "b"];
    assert a6 == [Str("a"), Bool(false), Undefined, Null, Str(""), Str("b")];
    assert Join(["a", "b"], " ") == "a" + " " + Join(["b"], " ");
  }
}

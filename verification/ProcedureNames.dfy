/**
 Parsing procedure names with a cache (`ProcedureNameParser`): a cached answer
 is the answer parsing would give now, whatever the cache has forgotten.
 */
module ProcedureNames {
  import opened Options
  import opened Sequences

  datatype Parsed = Parsed(packageName: string, processName: string)

  datatype NotFound = NotFound

  /** What parsing means: two parts name a package and a procedure, one part a procedure of the only package. */
  function Resolve(normalized: string, procedureList: set<string>, packages: seq<string>): Result<Parsed, NotFound> {
    var parts := Split(normalized, '.');
    if |parts| == 2 then Lookup(parts[0], parts[1], procedureList)
    else if |parts| == 1 && |packages| == 1 then Lookup(packages[0], parts[0], procedureList)
    else Err(NotFound)
  }

  function Lookup(packageName: string, processName: string, procedureList: set<string>): Result<Parsed, NotFound> {
    if packageName != [] && processName != [] && packageName in procedureList then Ok(Parsed(packageName, processName))
    else Err(NotFound)
  }

  /** What a caller has to write for a procedure: both names with a dot between them, or its name alone if there is one package. */
  predicate Names(normalized: string, packages: seq<string>, parsed: Parsed) {
    || ('.' !in parsed.packageName && normalized == parsed.packageName + "." + parsed.processName)
    || (packages == [parsed.packageName] && normalized == parsed.processName)
  }

  /** An answer is a non-empty procedure name of a known package, and is what was written. */
  lemma ResolvesExactly(normalized: string, procedureList: set<string>, packages: seq<string>, parsed: Parsed)
    ensures Resolve(normalized, procedureList, packages) == Ok(parsed) <==>
            && parsed.packageName in procedureList && parsed.packageName != []
            && parsed.processName != [] && '.' !in parsed.processName
            && Names(normalized, packages, parsed)
  {
    SplitPartsAreWhole(normalized, '.');
    JoinOfSplit(normalized, '.');
    if '.' !in parsed.processName {
      SplitOfWhole(parsed.processName, '.');
      if '.' !in parsed.packageName {
        SplitOfWhole(parsed.packageName, '.');
        SplitOfJoined(parsed.packageName, parsed.processName, '.');
      }
    }
  }

  function Key(packages: seq<string>, normalized: string): string {
    Join(packages, ',') + ":" + normalized
  }

  // ---- when two questions can share a key and still differ

  /** Two questions share a key although their answers differ. */
  ghost predicate Clash(p: seq<string>, m: string, q: seq<string>, n: string, procedureList: set<string>) {
    Key(p, m) == Key(q, n) && Resolve(m, procedureList, p) != Resolve(n, procedureList, q)
  }

  /** The list is one name that a procedure without a package can belong to. */
  predicate OnlyPackage(packages: seq<string>) {
    |packages| == 1 && packages[0] != []
  }

  /** A joined list, followed by the separator of the key, begins the other. */
  predicate Begins(p: seq<string>, q: seq<string>) {
    Join(p, ',') + ":" <= Join(q, ',')
  }

  /** What a caller can look at before it asks about one list after the other. */
  predicate CanClash(p: seq<string>, q: seq<string>) {
    || (Join(p, ',') == Join(q, ',') && OnlyPackage(p) != OnlyPackage(q))
    || Begins(p, q)
    || Begins(q, p)
  }

  lemma ClashIsSymmetric(p: seq<string>, m: string, q: seq<string>, n: string, procedureList: set<string>)
    requires Clash(p, m, q, n, procedureList)
    ensures Clash(q, n, p, m, procedureList)
  {}

  /** A shared key with different answers needs one of the two reasons. */
  lemma ClashNeedsReason(p: seq<string>, m: string, q: seq<string>, n: string, procedureList: set<string>)
    requires Clash(p, m, q, n, procedureList)
    ensures CanClash(p, q)
  {
    var a, b, key := Join(p, ','), Join(q, ','), Key(p, m);
    assert key == a + ":" + m == b + ":" + n;
    if |a| == |b| {
      assert key[..|a|] == a && key[..|b|] == b && key[|a| + 1..] == m && key[|b| + 1..] == n;
    } else if |a| < |b| {
      assert key[..|a| + 1] == a + ":" && key[..|b|] == b;
    } else {
      assert key[..|b| + 1] == b + ":" && key[..|a|] == a;
    }
  }

  /** The same text names a procedure of the only package for one list and nothing for the other. */
  lemma OnlyPackageClashes(p: seq<string>, q: seq<string>)
    requires Join(p, ',') == Join(q, ',') && OnlyPackage(p) && !OnlyPackage(q)
    ensures Clash(p, "x", q, "x", {p[0]})
  {
    assert "x"[1..] == "" && Split("", '.') == [""] && ["x"[0]] + [] == "x";
    assert Split("x", '.') == ["x"];
  }

  /** The rest of the longer list becomes part of the shorter one's question, whose package is then another. */
  lemma BeginningClashes(p: seq<string>, q: seq<string>) returns (m: string)
    requires Begins(p, q)
    ensures Clash(p, m, q, "x.y", {"x"})
  {
    var a, b := Join(p, ','), Join(q, ',');
    var rest := b[|a| + 1..];
    m := rest + ":x" + "." + "y";
    assert b == a + ":" + rest;
    assert a + ":" + m == b + ":" + ("x" + "." + "y");
    assert "x" + "." + "y" == "x.y";
    SplitOfJoined(rest + ":x", "y", '.');
    SplitOfJoined("x", "y", '.');
    OneCharacter('x');
    OneCharacter('y');
    JoinOfSplit(rest + ":x", '.');
    assert Resolve("x.y", {"x"}, q) == Ok(Parsed("x", "y"));
    assert |rest + ":x"| > 1;
  }

  lemma OneCharacter(c: char)
    requires c != '.'
    ensures Split([c], '.') == [[c]]
  {
    assert [c][1..] == "" && Split("", '.') == [""] && [c] + [] == [c];
    assert Split("", '.')[1..] == [];
  }

  /**
   For two lists of packages some questions share a key and have different
   answers exactly when a look at the lists says so.
   */
  lemma KeysClashExactlyWhen(p: seq<string>, q: seq<string>)
    ensures (exists m, n, procedureList :: Clash(p, m, q, n, procedureList)) <==> CanClash(p, q)
  {
    hide Clash, CanClash;
    forall m, n, procedureList | Clash(p, m, q, n, procedureList)
      ensures CanClash(p, q)
    {
      ClashNeedsReason(p, m, q, n, procedureList);
    }
    if CanClash(p, q) {
      var m, n, procedureList := ReasonIsEnough(p, q);
    }
  }

  lemma ReasonIsEnough(p: seq<string>, q: seq<string>) returns (m: string, n: string, procedureList: set<string>)
    requires CanClash(p, q)
    ensures Clash(p, m, q, n, procedureList)
  {
    hide Clash;
    if Begins(p, q) {
      m := BeginningClashes(p, q);
      n, procedureList := "x.y", {"x"};
    } else if Begins(q, p) {
      n := BeginningClashes(q, p);
      m, procedureList := "x.y", {"x"};
      ClashIsSymmetric(q, n, p, m, procedureList);
    } else if OnlyPackage(p) {
      m, n, procedureList := "x", "x", {p[0]};
      OnlyPackageClashes(p, q);
    } else {
      m, n, procedureList := "x", "x", {q[0]};
      OnlyPackageClashes(q, p);
      ClashIsSymmetric(q, n, p, m, procedureList);
    }
  }

  // ---- names without separators

  /** Names that the key's separators do not occur in. */
  predicate Clean(packages: seq<string>) {
    forall i :: 0 <= i < |packages| ==> ',' !in packages[i] && ':' !in packages[i]
  }

  lemma {:induction false} JoinHasNoColon(packages: seq<string>)
    requires Clean(packages)
    ensures ':' !in Join(packages, ',')
  {
    if |packages| > 1 { JoinHasNoColon(packages[1..]); }
  }

  /** The separator occurs in a join exactly when there are two names or more. */
  lemma NoSeparatorInShortJoin(p: seq<string>)
    requires Clean(p)
    ensures ',' in Join(p, ',') <==> |p| >= 2
  {
    if |p| >= 2 { assert Join(p, ',')[|p[0]|] == ','; }
  }

  /** Such lists never clash, whatever is asked about them. */
  lemma CleanNamesNeverClash(p: seq<string>, q: seq<string>)
    requires Clean(p) && Clean(q)
    ensures !CanClash(p, q)
  {
    JoinHasNoColon(p);
    JoinHasNoColon(q);
    NoSeparatorInShortJoin(p);
    NoSeparatorInShortJoin(q);
    assert forall a: string :: (a + ":")[|a|] == ':';
  }

  // ---- the parser

  /** The parser with the snapshot of the registry that owns it. `asked` are the lists asked about since it was replaced. */
  class ProcedureNameParser {
    const normalize: string -> string
    var procedureList: set<string>
    var cache: map<string, Parsed>
    ghost var asked: set<seq<string>>

    constructor (normalize: string -> string)
      ensures this.normalize == normalize && procedureList == {} && cache == map[] && asked == {} && Valid()
    {
      this.normalize := normalize;
      procedureList, cache := {}, map[];
      asked := {};
    }

    /** The answer is right for a question with this key about a list that was asked about. */
    ghost predicate Answers(key: string, parsed: Parsed, packages: seq<string>, normalized: string)
      reads this
    {
      packages in asked && Key(packages, normalized) == key && Resolve(normalized, procedureList, packages) == Ok(parsed)
    }

    /** Whatever the cache holds is the current answer to some question with its key. */
    ghost predicate Valid()
      reads this
    {
      forall key :: key in cache ==> exists packages, normalized :: Answers(key, cache[key], packages, normalized)
    }

    /** A new snapshot replaces the old one, and the cache starts empty. */
    method ReplaceSnapshot(next: set<string>)
      modifies this
      ensures procedureList == next && cache == map[] && asked == {} && Valid()
    {
      procedureList := next;
      cache := map[];
      asked := {};
    }

    /** The LRU cache may forget any entry at any time. */
    method Forget(key: string)
      requires Valid()
      modifies `cache
      ensures cache == old(cache) - {key} && Valid()
    {
      ghost var known := cache;
      cache := cache - {key};
      forall k | k in cache
        ensures exists p, n :: Answers(k, cache[k], p, n)
      {
        var p, n :| p in asked && Key(p, n) == k && Resolve(n, procedureList, p) == Ok(known[k]);
        assert Answers(k, cache[k], p, n);
      }
    }

    /**
     The answer comes from the cache or from parsing, and is right unless a list
     asked about since the last snapshot can clash with this one.
     */
    method Parse(executeString: string, packages: seq<string>) returns (r: Result<Parsed, NotFound>)
      requires Valid()
      modifies `cache, `asked
      ensures Valid() && asked == old(asked) + {packages}
      ensures var key := Key(packages, normalize(executeString));
              r == if key in old(cache) then Ok(old(cache)[key]) else Resolve(normalize(executeString), procedureList, packages)
      ensures cache == if r.Ok? then old(cache)[Key(packages, normalize(executeString)) := r.value] else old(cache)
      ensures (forall p :: p in old(asked) ==> !CanClash(p, packages)) ==>
                r == Resolve(normalize(executeString), procedureList, packages)
    {
      hide Resolve, Key, CanClash;
      var normalized := normalize(executeString);
      var key := Key(packages, normalized);
      ghost var before, known := asked, cache;
      asked := asked + {packages};
      if key in cache {
        r := Ok(cache[key]);
        ghost var p, n :| p in before && Key(p, n) == key && Resolve(n, procedureList, p) == r;
        if r != Resolve(normalized, procedureList, packages) {
          assert Clash(p, n, packages, normalized, procedureList);
          ClashNeedsReason(p, n, packages, normalized, procedureList);
        }
      } else {
        r := ResolveParts(normalized, procedureList, packages);
        if r.Ok? {
          cache := cache[key := r.value];
          assert Answers(key, r.value, packages, normalized);
        }
      }
      forall k | k in cache
        ensures exists p, n :: Answers(k, cache[k], p, n)
      {
        if k in known && cache[k] == known[k] {
          var p, n :| p in before && Key(p, n) == k && Resolve(n, procedureList, p) == Ok(known[k]);
          assert Answers(k, cache[k], p, n);
        }
      }
    }

    method ResolveParts(normalized: string, list: set<string>, packages: seq<string>) returns (r: Result<Parsed, NotFound>)
      ensures r == Resolve(normalized, list, packages)
    {
      var parts := Split(normalized, '.');
      r := Err(NotFound);
      if |parts| == 2 {
        var packageName, processName := parts[0], parts[1];
        if packageName != [] && processName != [] && packageName in list {
          r := Ok(Parsed(packageName, processName));
        }
      } else if |parts| == 1 && |packages| == 1 {
        var packageName, processName := packages[0], parts[0];
        if packageName != [] && processName != [] && packageName in list {
          r := Ok(Parsed(packageName, processName));
        }
      }
    }
  }

  /** Every clash is served: after the first question the second gets the first one's answer, not its own. */
  method ServesAnotherAnswer(
      normalize: string -> string, list: set<string>, e: string, p: seq<string>, f: string, q: seq<string>)
      returns (first: Result<Parsed, NotFound>, second: Result<Parsed, NotFound>)
    requires Clash(p, normalize(e), q, normalize(f), list) && Resolve(normalize(e), list, p).Ok?
    ensures first == Resolve(normalize(e), list, p)
    ensures second == first && second != Resolve(normalize(f), list, q)
  {
    var parser := new ProcedureNameParser(normalize);
    parser.ReplaceSnapshot(list);
    first := parser.Parse(e, p);
    second := parser.Parse(f, q);
  }
}

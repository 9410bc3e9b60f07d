/**
 * The trie matcher the router sits on (`Wilaak\Http\RadixRouter`), as far as
 * src/RadixRouter.php uses it: its `allowedMethods`, its `add`, its `lookup`,
 * and its two public tables `tree` and `static`, which the router copies to
 * and from the cache.
 *
 * The trie's own structure is not part of this model. Its tables are lists of
 * registrations, static paths (no `:`) in `static` and the others in `tree`.
 * Which patterns `add` refuses is given as a map from path to the trie's
 * message, and `lookup` as a function of the tables, the method and the path.
 */
module TrieMatcher {
  import opened Wrappers
  import opened RouterErrors

  /** One call of `add(methods, path, handler)`. */
  datatype Registration = Registration(methods: seq<string>, path: string, handler: string)

  /** What `lookup` returns: the status code, and the keys the router reads. */
  datatype LookupResult = LookupResult(
    code: int,
    handler: string,
    params: Option<map<string, string>>,
    allowedMethods: Option<seq<string>>)

  predicate IsStaticPath(path: string) {
    ':' !in path
  }

  /** The registrations of static paths, in order. */
  function StaticPart(regs: seq<Registration>): (r: seq<Registration>)
    ensures |r| <= |regs|
    ensures forall i :: 0 <= i < |r| ==> IsStaticPath(r[i].path)
  {
    if regs == [] then []
    else (if IsStaticPath(regs[0].path) then [regs[0]] else []) + StaticPart(regs[1..])
  }

  /** The registrations of paths with parameters, in order. */
  function DynamicPart(regs: seq<Registration>): (r: seq<Registration>)
    ensures |r| <= |regs|
    ensures forall i :: 0 <= i < |r| ==> !IsStaticPath(r[i].path)
  {
    if regs == [] then []
    else (if IsStaticPath(regs[0].path) then [] else [regs[0]]) + DynamicPart(regs[1..])
  }

  lemma {:induction false} StaticPartAppend(a: seq<Registration>, b: seq<Registration>)
    ensures StaticPart(a + b) == StaticPart(a) + StaticPart(b)
  {
    if a == [] {
      assert a + b == b;
    } else {
      var ab := a + b;
      assert ab[0] == a[0] && ab[1..] == a[1..] + b;
      StaticPartAppend(a[1..], b);
      var h := if IsStaticPath(a[0].path) then [a[0]] else [];
      assert StaticPart(ab) == h + StaticPart(a[1..] + b);
      assert StaticPart(a) == h + StaticPart(a[1..]);
      assert h + (StaticPart(a[1..]) + StaticPart(b)) == (h + StaticPart(a[1..])) + StaticPart(b);
    }
  }

  lemma {:induction false} DynamicPartAppend(a: seq<Registration>, b: seq<Registration>)
    ensures DynamicPart(a + b) == DynamicPart(a) + DynamicPart(b)
  {
    if a == [] {
      assert a + b == b;
    } else {
      var ab := a + b;
      assert ab[0] == a[0] && ab[1..] == a[1..] + b;
      DynamicPartAppend(a[1..], b);
      var h := if IsStaticPath(a[0].path) then [] else [a[0]];
      assert DynamicPart(ab) == h + DynamicPart(a[1..] + b);
      assert DynamicPart(a) == h + DynamicPart(a[1..]);
      assert h + (DynamicPart(a[1..]) + DynamicPart(b)) == (h + DynamicPart(a[1..])) + DynamicPart(b);
    }
  }

  /** The add history and the two tables, together. */
  datatype Tables = Tables(log: seq<Registration>, tree: seq<Registration>, staticTable: seq<Registration>)

  /** The tables after `add` accepted `regs` in order: each lands in the
      table its path belongs to, after the ones already there. */
  function Extend(t: Tables, regs: seq<Registration>): Tables {
    Tables(t.log + regs, t.tree + DynamicPart(regs), t.staticTable + StaticPart(regs))
  }

  /** Extending twice is extending once by both lists. */
  lemma ExtendTwice(t: Tables, a: seq<Registration>, b: seq<Registration>)
    ensures Extend(Extend(t, a), b) == Extend(t, a + b)
  {
    StaticPartAppend(a, b);
    DynamicPartAppend(a, b);
    ConcatAssoc(t.log, a, b);
    ConcatAssoc(t.tree, DynamicPart(a), DynamicPart(b));
    ConcatAssoc(t.staticTable, StaticPart(a), StaticPart(b));
  }

  lemma ConcatAssoc(x: seq<Registration>, y: seq<Registration>, z: seq<Registration>)
    ensures x + y + z == x + (y + z)
  {
  }

  lemma ExtendNothing(t: Tables)
    ensures Extend(t, []) == t
  {
    assert t.log + [] == t.log && t.tree + [] == t.tree && t.staticTable + [] == t.staticTable;
  }

  class Trie {
    /** Every method the trie knows; a route without methods gets these. */
    const allowedMethods: seq<string>
    /** The paths `add` refuses, each with the message it raises. */
    const rejected: map<string, string>
    /** `lookup(httpMethod, path)` as a function of the tables. */
    const lookup: (seq<Registration>, seq<Registration>, string, string) -> LookupResult

    /** The tables `tree` and `static` (a keyword here, hence the name). */
    var tree: seq<Registration>
    var staticTable: seq<Registration>
    /** Every `add` that succeeded, in order. */
    ghost var log: seq<Registration>

    constructor(allowedMethods: seq<string>, rejected: map<string, string>,
                lookup: (seq<Registration>, seq<Registration>, string, string) -> LookupResult)
      ensures this.allowedMethods == allowedMethods
      ensures this.rejected == rejected && this.lookup == lookup
      ensures tree == [] && staticTable == [] && log == []
    {
      this.allowedMethods := allowedMethods;
      this.rejected := rejected;
      this.lookup := lookup;
      tree, staticTable, log := [], [], [];
    }

    ghost function State(): Tables
      reads this
    {
      Tables(log, tree, staticTable)
    }

    function Lookup(httpMethod: string, path: string): LookupResult
      reads this
    {
      lookup(tree, staticTable, httpMethod, path)
    }

    /** Registers `handler` for `methods` on `path`, or refuses the path and
        changes nothing. */
    method Add(methods: seq<string>, path: string, handler: string) returns (r: Outcome<Error>)
      modifies this
      ensures r.Fail? <==> path in rejected
      ensures r.Fail? ==> r.error == InvalidPattern(path, rejected[path])
      ensures r.Fail? ==> State() == old(State())
      ensures r.Pass? ==> State() == Extend(old(State()), [Registration(methods, path, handler)])
    {
      if path in rejected {
        return Fail(InvalidPattern(path, rejected[path]));
      }
      var reg := Registration(methods, path, handler);
      if IsStaticPath(path) {
        staticTable := staticTable + [reg];
      } else {
        tree := tree + [reg];
      }
      log := log + [reg];
      r := Pass;
    }
  }
}

/**
 * Recipe resolution of scripts/_justfile.py: a recipe's command is the commands of its dependencies,
 * resolved in turn, followed by its own. Parsing is left out.
 */
module JustRecipes {
  import opened Prelude

  datatype Recipe = Recipe(deps: seq<string>, commands: seq<string>)

  type Justfile = map<string, Recipe>

  datatype Failure = Cycle(path: seq<string>) | Undefined(name: string)

  function Elements(stack: seq<string>): set<string> { set i | 0 <= i < |stack| :: stack[i] }

  /** `" && ".join(part for part in parts if part)`. */
  function Joined(parts: seq<string>): string {
    if parts == [] then ""
    else
      var first, last := Joined(parts[..|parts| - 1]), parts[|parts| - 1];
      if last == "" then first else if first == "" then last else first + " && " + last
  }

  lemma ElementsGrow(f: Justfile, stack: seq<string>, recipe: string)
    requires recipe in f && recipe !in stack
    ensures f.Keys - Elements(stack + [recipe]) < f.Keys - Elements(stack)
    ensures |f.Keys - Elements(stack + [recipe])| < |f.Keys - Elements(stack)|
  {
    var a, b := f.Keys - Elements(stack + [recipe]), f.Keys - Elements(stack);
    assert (stack + [recipe])[|stack|] == recipe;
    forall x | x in Elements(stack) ensures x in Elements(stack + [recipe]) {
      var i :| 0 <= i < |stack| && stack[i] == x;
      assert (stack + [recipe])[i] == x;
    }
    assert recipe in b && recipe !in a;
    assert a <= b - {recipe};
    SubsetSize(a, b - {recipe});
  }

  lemma {:induction false} SubsetSize<T>(a: set<T>, b: set<T>)
    requires a <= b
    ensures |a| <= |b|
  {
    if a != {} {
      var x :| x in a;
      SubsetSize(a - {x}, b - {x});
    }
  }

  /** `_resolve`: every call has fewer recipes that are not on the stack. */
  function Resolve(f: Justfile, recipe: string, stack: seq<string>): Result<string, Failure>
    decreases |f.Keys - Elements(stack)|, 1, 0
  {
    if recipe in stack then Err(Cycle(stack + [recipe]))
    else if recipe !in f then Err(Undefined(recipe))
    else
      ElementsGrow(f, stack, recipe);
      match ResolveEach(f, f[recipe].deps, stack + [recipe])
      case Err(e) => Err(e)
      case Ok(parts) => Ok(Joined(parts + f[recipe].commands))
  }

  function ResolveEach(f: Justfile, deps: seq<string>, stack: seq<string>): Result<seq<string>, Failure>
    decreases |f.Keys - Elements(stack)|, 2, |deps|
  {
    if deps == [] then Ok([])
    else
      match ResolveEach(f, deps[..|deps| - 1], stack)
      case Err(e) => Err(e)
      case Ok(parts) =>
        match Resolve(f, deps[|deps| - 1], stack)
        case Err(e) => Err(e)
        case Ok(part) => Ok(parts + [part])
  }

  /* ---------- walks through the dependency graph ---------- */

  predicate IsWalk(f: Justfile, walk: seq<string>) {
    walk != [] && forall i :: 0 <= i < |walk| - 1 ==> walk[i] in f && walk[i + 1] in f[walk[i]].deps
  }

  predicate Repeats(walk: seq<string>) { exists i, j :: 0 <= i < j < |walk| && walk[i] == walk[j] }

  /** Some walk from `recipe` comes back to where it has been. */
  ghost predicate ReachesCycle(f: Justfile, recipe: string) {
    exists walk :: IsWalk(f, walk) && walk[0] == recipe && Repeats(walk)
  }

  /** Some walk from `recipe` ends at a name that is not defined. */
  ghost predicate ReachesUndefined(f: Justfile, recipe: string) {
    exists walk :: IsWalk(f, walk) && walk[0] == recipe && walk[|walk| - 1] !in f
  }

  lemma WalkOn(f: Justfile, stack: seq<string>, recipe: string, dep: string)
    requires IsWalk(f, stack + [recipe]) && recipe in f && dep in f[recipe].deps
    ensures IsWalk(f, stack + [recipe] + [dep])
  {
  }

  /** A failure is genuine: it names a walk from the start of the stack. */
  lemma {:induction false} FailureIsGenuine(f: Justfile, recipe: string, stack: seq<string>)
    requires IsWalk(f, stack + [recipe]) && Resolve(f, recipe, stack).Err?
    ensures var e := Resolve(f, recipe, stack).error;
            exists walk :: IsWalk(f, walk) && stack + [recipe] <= walk &&
                           match e
                           case Cycle(path) => path == walk && Repeats(walk)
                           case Undefined(name) => walk[|walk| - 1] == name && name !in f
    decreases |f.Keys - Elements(stack)|
  {
    var here := stack + [recipe];
    if recipe in stack {
      var i :| 0 <= i < |stack| && stack[i] == recipe;
      assert here[i] == here[|stack|];
      assert here <= here;
    } else if recipe !in f {
      assert here[|here| - 1] == recipe && here <= here;
    } else {
      ElementsGrow(f, stack, recipe);
      var k := FirstFailure(f, f[recipe].deps, here);
      WalkOn(f, stack, recipe, f[recipe].deps[k]);
      FailureIsGenuine(f, f[recipe].deps[k], here);
    }
  }

  lemma {:induction false} FirstFailure(f: Justfile, deps: seq<string>, stack: seq<string>) returns (k: nat)
    requires ResolveEach(f, deps, stack).Err?
    ensures k < |deps| && Resolve(f, deps[k], stack).Err?
    ensures Resolve(f, deps[k], stack).error == ResolveEach(f, deps, stack).error
  {
    if ResolveEach(f, deps[..|deps| - 1], stack).Err? {
      k := FirstFailure(f, deps[..|deps| - 1], stack);
    } else {
      k := |deps| - 1;
    }
  }

  lemma {:induction false} EachResolved(f: Justfile, deps: seq<string>, stack: seq<string>, k: nat)
    requires ResolveEach(f, deps, stack).Ok? && k < |deps|
    ensures |ResolveEach(f, deps, stack).value| == |deps|
    ensures Resolve(f, deps[k], stack) == Ok(ResolveEach(f, deps, stack).value[k])
  {
    if k < |deps| - 1 {
      EachResolved(f, deps[..|deps| - 1], stack, k);
    } else if |deps| > 1 {
      EachResolved(f, deps[..|deps| - 1], stack, 0);
    }
  }

  /** A success follows every walk: it neither repeats nor leaves the file. */
  lemma {:induction false} SuccessFollowsWalks(f: Justfile, walk: seq<string>, k: nat)
    requires IsWalk(f, walk) && k < |walk| && Resolve(f, walk[0], []).Ok?
    ensures Resolve(f, walk[k], walk[..k]).Ok?
  {
    if k == 0 {
      assert walk[..0] == [];
    } else {
      SuccessFollowsWalks(f, walk, k - 1);
      assert walk[k - 1 + 1] in f[walk[k - 1]].deps;
      var deps := f[walk[k - 1]].deps;
      var i :| 0 <= i < |deps| && deps[i] == walk[k];
      assert walk[..k - 1] + [walk[k - 1]] == walk[..k];
      EachResolved(f, deps, walk[..k], i);
    }
  }

  /** Resolution succeeds exactly when no cycle and no undefined dependency can be reached. */
  lemma ResolvesExactly(f: Justfile, recipe: string)
    ensures Resolve(f, recipe, []).Ok? <==> !ReachesCycle(f, recipe) && !ReachesUndefined(f, recipe)
  {
    if Resolve(f, recipe, []).Ok? {
      forall walk | IsWalk(f, walk) && walk[0] == recipe ensures !Repeats(walk) && walk[|walk| - 1] in f {
        SuccessFollowsWalks(f, walk, |walk| - 1);
        forall i, j | 0 <= i < j < |walk| ensures walk[i] != walk[j] {
          SuccessFollowsWalks(f, walk, j);
          assert walk[..j][i] == walk[i];
        }
      }
    } else {
      assert [] + [recipe] == [recipe];
      FailureIsGenuine(f, recipe, []);
    }
  }

  /** With every dependency defined, the cycle error is raised exactly when a cycle can be reached. */
  lemma CycleExactly(f: Justfile, recipe: string)
    requires recipe in f && forall r, d :: r in f && d in f[r].deps ==> d in f
    ensures ReachesCycle(f, recipe) <==> Resolve(f, recipe, []).Err? && Resolve(f, recipe, []).error.Cycle?
  {
    forall walk | IsWalk(f, walk) && walk[0] == recipe ensures walk[|walk| - 1] in f {
      if |walk| > 1 {
        assert walk[|walk| - 2 + 1] in f[walk[|walk| - 2]].deps;
      }
    }
    ResolvesExactly(f, recipe);
    if Resolve(f, recipe, []).Err? {
      assert [] + [recipe] == [recipe];
      FailureIsGenuine(f, recipe, []);
    }
  }

  /* ---------- the order of the commands ---------- */

  /** The recipes a successful resolution goes through, each after the ones it depends on. */
  function Order(f: Justfile, recipe: string, stack: seq<string>): (names: seq<string>)
    requires Resolve(f, recipe, stack).Ok?
    ensures names != [] && names[|names| - 1] == recipe
    decreases |f.Keys - Elements(stack)|, 1, 0
  {
    ElementsGrow(f, stack, recipe);
    OrderEach(f, f[recipe].deps, stack + [recipe]) + [recipe]
  }

  function OrderEach(f: Justfile, deps: seq<string>, stack: seq<string>): seq<string>
    requires ResolveEach(f, deps, stack).Ok?
    decreases |f.Keys - Elements(stack)|, 2, |deps|
  {
    if deps == [] then []
    else OrderEach(f, deps[..|deps| - 1], stack) + Order(f, deps[|deps| - 1], stack)
  }

  /** Every dependency of a recipe comes earlier. */
  predicate DependenciesFirst(f: Justfile, names: seq<string>) {
    forall p, d :: 0 <= p < |names| && names[p] in f && d in f[names[p]].deps ==> d in names[..p]
  }

  lemma AppendKeepsFirst(f: Justfile, a: seq<string>, b: seq<string>)
    requires DependenciesFirst(f, a) && DependenciesFirst(f, b)
    ensures DependenciesFirst(f, a + b)
  {
    forall p, d | 0 <= p < |a + b| && (a + b)[p] in f && d in f[(a + b)[p]].deps ensures d in (a + b)[..p] {
      if p < |a| {
        assert (a + b)[..p] == a[..p];
      } else {
        assert (a + b)[..p] == a + b[..p - |a|];
      }
    }
  }

  lemma {:induction false} OrderIsPostOrder(f: Justfile, recipe: string, stack: seq<string>)
    requires Resolve(f, recipe, stack).Ok?
    ensures DependenciesFirst(f, Order(f, recipe, stack))
    decreases |f.Keys - Elements(stack)|, 1, 0
  {
    ElementsGrow(f, stack, recipe);
    var here, deps := stack + [recipe], f[recipe].deps;
    var before := OrderEach(f, deps, here);
    OrderEachIsPostOrder(f, deps, here);
    assert (before + [recipe])[..|before|] == before;
    forall p, d | 0 <= p < |before| && (before + [recipe])[p] in f && d in f[(before + [recipe])[p]].deps
      ensures d in (before + [recipe])[..p]
    {
      assert (before + [recipe])[..p] == before[..p] && (before + [recipe])[p] == before[p];
    }
  }

  lemma {:induction false} OrderEachIsPostOrder(f: Justfile, deps: seq<string>, stack: seq<string>)
    requires ResolveEach(f, deps, stack).Ok?
    ensures DependenciesFirst(f, OrderEach(f, deps, stack)) && forall d :: d in deps ==> d in OrderEach(f, deps, stack)
    decreases |f.Keys - Elements(stack)|, 2, |deps|
  {
    if deps != [] {
      var first, last := deps[..|deps| - 1], deps[|deps| - 1];
      OrderEachIsPostOrder(f, first, stack);
      OrderIsPostOrder(f, last, stack);
      AppendKeepsFirst(f, OrderEach(f, first, stack), Order(f, last, stack));
    }
  }

  function Both(a: string, b: string): string { if b == "" then a else if a == "" then b else a + " && " + b }

  lemma BothAssociative(a: string, b: string, c: string)
    ensures Both(Both(a, b), c) == Both(a, Both(b, c))
  {
  }

  lemma {:induction false} JoinedAppend(a: seq<string>, b: seq<string>)
    ensures Joined(a + b) == Both(Joined(a), Joined(b))
  {
    if b == [] {
      assert a + b == a;
    } else {
      var first := b[..|b| - 1];
      assert (a + b)[..|a + b| - 1] == a + first;
      JoinedAppend(a, first);
      BothAssociative(Joined(a), Joined(first), b[|b| - 1]);
    }
  }

  /** The own commands of each recipe in turn. */
  function CommandsOf(f: Justfile, names: seq<string>): seq<string> {
    if names == [] then []
    else
      var last := names[|names| - 1];
      CommandsOf(f, names[..|names| - 1]) + if last in f then f[last].commands else []
  }

  lemma {:induction false} CommandsAppend(f: Justfile, a: seq<string>, b: seq<string>)
    ensures CommandsOf(f, a + b) == CommandsOf(f, a) + CommandsOf(f, b)
  {
    if b == [] {
      assert a + b == a;
    } else {
      assert (a + b)[..|a + b| - 1] == a + b[..|b| - 1];
      CommandsAppend(f, a, b[..|b| - 1]);
    }
  }

  /** A resolved command is the non-empty commands of the recipes in post-order, joined once. */
  lemma {:induction false} ResolvesToPostOrder(f: Justfile, recipe: string, stack: seq<string>)
    requires Resolve(f, recipe, stack).Ok?
    ensures Resolve(f, recipe, stack).value == Joined(CommandsOf(f, Order(f, recipe, stack)))
    ensures DependenciesFirst(f, Order(f, recipe, stack))
    decreases |f.Keys - Elements(stack)|, 1, 0
  {
    OrderIsPostOrder(f, recipe, stack);
    ElementsGrow(f, stack, recipe);
    var here, deps, own := stack + [recipe], f[recipe].deps, f[recipe].commands;
    var before := OrderEach(f, deps, here);
    EachResolvesToPostOrder(f, deps, here);
    JoinedAppend(ResolveEach(f, deps, here).value, own);
    assert (before + [recipe])[..|before|] == before;
    JoinedAppend(CommandsOf(f, before), own);
  }

  lemma {:induction false} EachResolvesToPostOrder(f: Justfile, deps: seq<string>, stack: seq<string>)
    requires ResolveEach(f, deps, stack).Ok?
    ensures Joined(ResolveEach(f, deps, stack).value) == Joined(CommandsOf(f, OrderEach(f, deps, stack)))
    decreases |f.Keys - Elements(stack)|, 2, |deps|
  {
    if deps != [] {
      var first, last := deps[..|deps| - 1], deps[|deps| - 1];
      EachResolvesToPostOrder(f, first, stack);
      ResolvesToPostOrder(f, last, stack);
      var parts, part := ResolveEach(f, first, stack).value, Resolve(f, last, stack).value;
      assert (parts + [part])[..|parts|] == parts;
      CommandsAppend(f, OrderEach(f, first, stack), Order(f, last, stack));
      JoinedAppend(CommandsOf(f, OrderEach(f, first, stack)), CommandsOf(f, Order(f, last, stack)));
    }
  }

  /* ---------- joining ---------- */

  function NonEmpty(parts: seq<string>): (r: seq<string>)
    ensures forall p :: p in r <==> p in parts && p != ""
  {
    if parts == [] then []
    else if parts[0] == "" then NonEmpty(parts[1..])
    else [parts[0]] + NonEmpty(parts[1..])
  }

  /** `" && ".join(parts)`, read from the front. */
  function JoinAll(parts: seq<string>): string {
    if parts == [] then "" else if |parts| == 1 then parts[0] else parts[0] + " && " + JoinAll(parts[1..])
  }

  lemma {:induction false} JoinAllNonEmpty(parts: seq<string>)
    requires "" !in parts
    ensures JoinAll(parts) == "" <==> parts == []
  {
    if parts != [] {
      assert parts[0] != "";
    }
  }

  /** Joining is writing the parts that are not empty one after the other, in order, with the separator between them. */
  lemma {:induction false} JoinedIsJoinAll(parts: seq<string>)
    ensures Joined(parts) == JoinAll(NonEmpty(parts))
  {
    if parts != [] {
      var first, rest := [parts[0]], parts[1..];
      assert parts == first + rest && first[..0] == [];
      JoinedIsJoinAll(rest);
      JoinedAppend(first, rest);
      assert Joined(first) == parts[0];
      JoinAllNonEmpty(NonEmpty(rest));
      assert ([parts[0]] + NonEmpty(rest))[1..] == NonEmpty(rest);
    }
  }

  /** So a resolved command is all own commands in post-order, written out in full. */
  lemma ResolvedIsWrittenOut(f: Justfile, recipe: string)
    requires Resolve(f, recipe, []).Ok?
    ensures Resolve(f, recipe, []).value == JoinAll(NonEmpty(CommandsOf(f, Order(f, recipe, []))))
  {
    ResolvesToPostOrder(f, recipe, []);
    JoinedIsJoinAll(CommandsOf(f, Order(f, recipe, [])));
  }
}

/** The errors the scanner's stages throw, and `Collect`: the meaning of a
    loop that pushes each step's items onto one array and lets the first
    exception escape. */
module Results {

  /** What a stage of the scan throws. */
  datatype ScanError =
    | NotFound(path: string)          // `_parse`: the file does not exist
    | ReadFailed(path: string)        // `readFileSync` or `readdirSync` threw
    | DecodeFailed(path: string)      // the VDF decoder threw
    | MissingLibraryFolders           // `_getConfig`: no `libraryfolders` key
    | KeysOfUndefined                 // `Object.keys(undefined)` in `_getDirs`

  datatype Result<+T> = Success(value: T) | Failure(error: ScanError)

  /** The items of the steps, in step order, or the error of the first step
      that throws. */
  function Collect<T>(steps: seq<Result<seq<T>>>): Result<seq<T>>
    decreases |steps|
  {
    if steps == [] then Success([])
    else
      match Collect(steps[..|steps| - 1])
      case Failure(e) => Failure(e)
      case Success(prev) =>
        match steps[|steps| - 1]
        case Failure(e) => Failure(e)
        case Success(items) => Success(prev + items)
  }

  /** Concatenation of all the sequences, in order. */
  function Flatten<T>(parts: seq<seq<T>>): seq<T>
    decreases |parts|
  {
    if parts == [] then [] else Flatten(parts[..|parts| - 1]) + parts[|parts| - 1]
  }

  function Sum(xs: seq<nat>): nat
    decreases |xs|
  {
    if xs == [] then 0 else Sum(xs[..|xs| - 1]) + xs[|xs| - 1]
  }

  /** One more step extends the collected prefix. */
  lemma CollectStep<T>(steps: seq<Result<seq<T>>>, k: nat)
    requires k < |steps|
    ensures Collect(steps[..k + 1]) ==
      match Collect(steps[..k])
      case Failure(e) => Failure(e)
      case Success(prev) =>
        match steps[k]
        case Failure(e) => Failure(e)
        case Success(items) => Success(prev + items)
  {
    assert steps[..k + 1][..k] == steps[..k];
  }

  /** Once a step has thrown, nothing later is collected. */
  lemma {:induction false} CollectFailureSticks<T>(steps: seq<Result<seq<T>>>, k: nat)
    requires k <= |steps| && Collect(steps[..k]).Failure?
    ensures Collect(steps) == Collect(steps[..k])
    decreases |steps| - k
  {
    if k < |steps| {
      CollectStep(steps, k);
      CollectFailureSticks(steps, k + 1);
    } else {
      assert steps[..k] == steps;
    }
  }

  /** The collection fails exactly when some step throws, and then with the
      error of the first step that throws. */
  lemma {:induction false} CollectFails<T>(steps: seq<Result<seq<T>>>)
    ensures Collect(steps).Failure? <==> exists i :: 0 <= i < |steps| && steps[i].Failure?
    ensures Collect(steps).Failure? ==>
      exists i :: 0 <= i < |steps| && steps[i] == Collect(steps) &&
        forall j :: 0 <= j < i ==> steps[j].Success?
    decreases |steps|
  {
    if steps != [] {
      var n := |steps| - 1;
      var init := steps[..n];
      CollectFails(init);
      assert forall i :: 0 <= i < n ==> init[i] == steps[i];
    }
  }

  /** The first failing step decides the error. */
  lemma CollectFirstFailure<T>(steps: seq<Result<seq<T>>>, k: nat)
    requires k < |steps| && steps[k].Failure?
    requires forall j :: 0 <= j < k ==> steps[j].Success?
    ensures Collect(steps) == steps[k]
  {
    CollectFails(steps);
    var i :| 0 <= i < |steps| && steps[i] == Collect(steps) &&
      forall j :: 0 <= j < i ==> steps[j].Success?;
    assert i == k;
  }

  /** Successful steps are collected by concatenating their items in order. */
  lemma {:induction false} CollectAllSucceed<T>(steps: seq<Result<seq<T>>>)
    requires forall i :: 0 <= i < |steps| ==> steps[i].Success?
    ensures Collect(steps) == Success(Flatten(seq(|steps|, i requires 0 <= i < |steps| => steps[i].value)))
    decreases |steps|
  {
    if steps != [] {
      var n := |steps| - 1;
      CollectAllSucceed(steps[..n]);
      var all := seq(|steps|, i requires 0 <= i < |steps| => steps[i].value);
      assert all[..n] == seq(n, i requires 0 <= i < n => steps[..n][i].value);
    }
  }

  /** Collecting two runs of steps one after the other. */
  lemma {:induction false} CollectAppend<T>(a: seq<Result<seq<T>>>, b: seq<Result<seq<T>>>)
    ensures Collect(a + b) ==
      match Collect(a)
      case Failure(e) => Failure(e)
      case Success(x) =>
        match Collect(b)
        case Failure(e) => Failure(e)
        case Success(y) => Success(x + y)
    decreases |b|
  {
    if b == [] {
      assert a + b == a;
      if Collect(a).Success? {
        assert Collect(a).value + [] == Collect(a).value;
      }
    } else {
      var n := |b| - 1;
      assert (a + b)[..|a| + n] == a + b[..n];
      CollectAppend(a, b[..n]);
      if Collect(a).Success? && Collect(b[..n]).Success? && b[n].Success? {
        assert Collect(a).value + Collect(b[..n]).value + b[n].value
          == Collect(a).value + (Collect(b[..n]).value + b[n].value);
      }
    }
  }

  /** If no step yields more than its cap, the collection yields at most the
      sum of the caps. */
  lemma {:induction false} CollectBounded<T>(steps: seq<Result<seq<T>>>, caps: seq<nat>)
    requires |caps| == |steps|
    requires forall i :: 0 <= i < |steps| && steps[i].Success? ==> |steps[i].value| <= caps[i]
    ensures Collect(steps).Success? ==> |Collect(steps).value| <= Sum(caps)
    decreases |steps|
  {
    if steps != [] {
      var n := |steps| - 1;
      CollectBounded(steps[..n], caps[..n]);
    }
  }

  /** Every collected item comes from a step that succeeded. */
  lemma {:induction false} CollectMember<T>(steps: seq<Result<seq<T>>>, x: T)
    requires Collect(steps).Success? && x in Collect(steps).value
    ensures exists i :: 0 <= i < |steps| && steps[i].Success? && x in steps[i].value
    decreases |steps|
  {
    var n := |steps| - 1;
    if x !in steps[n].value {
      CollectMember(steps[..n], x);
      var i :| 0 <= i < n && steps[..n][i].Success? && x in steps[..n][i].value;
      assert steps[..n][i] == steps[i];
    }
  }
}

/**
 * `TestDisposable`: a disposable object for tests whose only state is
 * whether it has been disposed.
 */
module Disposables {

  /** How C# interpolation renders a `bool`. */
  function BoolText(b: bool): string {
    if b then "True" else "False"
  }

  class TestDisposable {
    var IsDisposed: bool

    constructor (isDisposed: bool)
      ensures IsDisposed == isDisposed
    {
      IsDisposed := isDisposed;
    }

    /** `Dispose()`: the object is disposed afterwards; a second call changes nothing. */
    method Dispose()
      modifies this
      ensures IsDisposed
      ensures old(IsDisposed) ==> unchanged(this)
    {
      IsDisposed := true;
    }

    /** `ToDebugDisplay()`, given the object's own `ToString` text: that text followed by the disposed state. */
    function ToDebugDisplay(objectText: string): (r: string)
      reads this
      ensures |objectText| <= |r| && r[..|objectText|] == objectText
      ensures r[|objectText|..] == " { IsDisposed: " + BoolText(IsDisposed) + " }"
    {
      objectText + " { IsDisposed: " + BoolText(IsDisposed) + " }"
    }
  }

  /** The debug display tells a disposed object from an undisposed one. */
  lemma DisplayRevealsState(a: TestDisposable, b: TestDisposable, objectText: string)
    requires a.IsDisposed != b.IsDisposed
    ensures a.ToDebugDisplay(objectText) != b.ToDebugDisplay(objectText)
  {
  }
}

/** The Euler step of a tick: `list.forEach(X::update)` over one actor list. */
module Motion {
  import opened Actors
  import opened Spacing

  method StepAll(s: seq<Actor>)
    requires Distinct(s)
    modifies set a | a in s
    ensures forall i | 0 <= i < |s| :: s[i].x == old(s[i].x) + s[i].speed
  {
    var i := 0;
    while i < |s|
      invariant 0 <= i <= |s|
      invariant forall k | 0 <= k < i :: s[k].x == old(s[k].x) + s[k].speed
      invariant forall k | i <= k < |s| :: s[k].x == old(s[k].x)
    {
      s[i].Update();
      i := i + 1;
    }
  }
}

/** Shared by every module of the model. */
module Common {
  datatype Option<+T> = None | Some(value: T)
  {
    function GetOr(default: T): T {
      match this
      case Some(v) => v
      case None => default
    }
  }

  /** Reading a map of counters or amounts: a missing key counts as zero. */
  function GetOrZero(m: map<string, int>, key: string): int {
    if key in m then m[key] else 0
  }

  /** `p` holds of the run `s` so far: at its start and after each of its steps. */
  ghost predicate AtEveryPrefix<T>(p: seq<T> -> bool, s: seq<T>) {
    forall i | 0 <= i <= |s| :: p(s[..i])
  }

  lemma AtEveryPrefixSnoc<T>(p: seq<T> -> bool, s: seq<T>, x: T)
    ensures AtEveryPrefix(p, s + [x]) <==> AtEveryPrefix(p, s) && p(s + [x])
    ensures AtEveryPrefix(p, s) ==> p(s)
  {
    var more := s + [x];
    assert forall i | 0 <= i <= |s| :: more[..i] == s[..i];
    assert more[..|more|] == more && s[..|s|] == s;
    if AtEveryPrefix(p, s) && p(more) {
      forall i | 0 <= i <= |more| ensures p(more[..i]) {
        if i < |more| {
          assert p(s[..i]);
        }
      }
    }
    if AtEveryPrefix(p, more) {
      assert p(more[..|more|]);
      forall i | 0 <= i <= |s| ensures p(s[..i]) {
        assert p(more[..i]);
      }
    }
    assert AtEveryPrefix(p, s) ==> p(s[..|s|]);
  }

  /** `q` holds of every step of the run `s` and the run before it. */
  ghost predicate AtEveryStep<T>(q: (seq<T>, T) -> bool, s: seq<T>) {
    forall i | 0 <= i < |s| :: q(s[..i], s[i])
  }

  lemma AtEveryStepSnoc<T>(q: (seq<T>, T) -> bool, s: seq<T>, x: T)
    ensures AtEveryStep(q, s + [x]) <==> AtEveryStep(q, s) && q(s, x)
  {
    var more := s + [x];
    assert forall i | 0 <= i <= |s| :: more[..i] == s[..i];
    assert s[..|s|] == s && more[|s|] == x;
    if AtEveryStep(q, more) {
      assert q(more[..|s|], more[|s|]);
      forall i | 0 <= i < |s| ensures q(s[..i], s[i]) {
        assert q(more[..i], more[i]);
      }
    }
  }

  /** If steps that meet `q` are exactly those that keep `p`, runs that keep `p` throughout are
      exactly those whose every step meets `q`. */
  lemma {:induction false} AlwaysIffEveryStep<T(!new)>(p: seq<T> -> bool, q: (seq<T>, T) -> bool, s: seq<T>)
    requires p([])
    requires forall t, x :: p(t) ==> (p(t + [x]) <==> q(t, x))
    ensures AtEveryPrefix(p, s) <==> AtEveryStep(q, s)
  {
    if s == [] {
      assert s[..0] == [];
    } else {
      var init, last := s[..|s| - 1], s[|s| - 1];
      assert init + [last] == s;
      AlwaysIffEveryStep(p, q, init);
      AtEveryPrefixSnoc(p, init, last);
      AtEveryStepSnoc(q, init, last);
    }
  }

  // ---------------------------------------------------------------- counting positions

  /** Where `p` holds in `s`. */
  function Places<T>(s: seq<T>, p: T -> bool): set<int> {
    set i | 0 <= i < |s| && p(s[i])
  }

  lemma PlacesSnoc<T>(s: seq<T>, p: T -> bool)
    requires s != []
    ensures var n := |s| - 1; |Places(s, p)| == |Places(s[..n], p)| + (if p(s[n]) then 1 else 0)
  {
    var n := |s| - 1;
    var before := Places(s[..n], p);
    if p(s[n]) {
      assert Places(s, p) == before + {n};
    } else {
      assert Places(s, p) == before;
    }
  }
}

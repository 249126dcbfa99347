/** Suggestions for misspelt keys, cli/config_validate.go: the edit distance of
    two byte strings and the closest candidate. */
module EditDistance {
  import opened Prelude

  function Min3(a: nat, b: nat, c: nat): nat {
    if a <= b && a <= c then a else if b <= c then b else c
  }

  /** The recurrence the matrix is filled by, over prefixes. */
  function Distance(a: Bytes, b: Bytes): nat {
    if a == [] then |b|
    else if b == [] then |a|
    else
      var a', b' := a[..|a| - 1], b[..|b| - 1];
      Min3(Distance(a', b) + 1, Distance(a, b') + 1, Distance(a', b') + if a[|a| - 1] == b[|b| - 1] then 0 else 1)
  }

  lemma PrefixStep(a: Bytes, b: Bytes, i: nat, j: nat)
    requires 0 < i <= |a| && 0 < j <= |b|
    ensures Distance(a[..i], b[..j])
         == Min3(Distance(a[..i - 1], b[..j]) + 1, Distance(a[..i], b[..j - 1]) + 1,
                 Distance(a[..i - 1], b[..j - 1]) + if a[i - 1] == b[j - 1] then 0 else 1)
  {
    var u, v := a[..i], b[..j];
    assert u[..i - 1] == a[..i - 1] && v[..j - 1] == b[..j - 1];
  }

  /** The distances row `i` of the matrix stands for. */
  ghost function DistanceRow(a: Bytes, b: Bytes, i: nat): seq<nat>
    requires i <= |a|
  {
    seq(|b| + 1, l requires 0 <= l <= |b| => Distance(a[..i], b[..l]))
  }

  /** One row follows from the row above by the recurrence, for one more byte of the first string. */
  predicate RowFollows(x: byte, b: Bytes, above: seq<nat>, row: seq<nat>) {
    && |above| == |row| == |b| + 1
    && forall j :: 0 < j <= |b| ==>
         row[j] == Min3(above[j] + 1, row[j - 1] + 1, above[j - 1] + if x == b[j - 1] then 0 else 1)
  }

  lemma DistanceRowFollows(a: Bytes, b: Bytes, i: nat)
    requires 0 < i <= |a|
    ensures RowFollows(a[i - 1], b, DistanceRow(a, b, i - 1), DistanceRow(a, b, i))
  {
    forall j | 0 < j <= |b| {
      PrefixStep(a, b, i, j);
    }
  }

  /** The first `n` cells of row `i`. */
  ghost predicate Holds(matrix: array2<nat>, i: nat, row: seq<nat>, n: nat)
    requires i < matrix.Length0 && n <= matrix.Length1 == |row|
    reads matrix
  {
    forall l :: 0 <= l < n ==> matrix[i, l] == row[l]
  }

  /** The inner loop: one row from the row above. */
  method FillRow(matrix: array2<nat>, a: Bytes, b: Bytes, i: nat, ghost above: seq<nat>, ghost row: seq<nat>)
    requires 1 <= i <= |a| && matrix.Length0 == |a| + 1 && matrix.Length1 == |b| + 1
    requires RowFollows(a[i - 1], b, above, row)
    requires Holds(matrix, i - 1, above, |b| + 1) && Holds(matrix, i, row, 1)
    modifies matrix
    ensures Holds(matrix, i, row, |b| + 1)
    ensures forall k, l :: 0 <= k <= |a| && k != i && 0 <= l <= |b| ==> matrix[k, l] == old(matrix[k, l])
  {
    for j := 1 to |b| + 1
      invariant forall k, l :: 0 <= k <= |a| && k != i && 0 <= l <= |b| ==> matrix[k, l] == old(matrix[k, l])
      invariant Holds(matrix, i, row, j)
    {
      var cost := if a[i - 1] == b[j - 1] then 0 else 1;
      matrix[i, j] := Min3(matrix[i - 1, j] + 1, matrix[i, j - 1] + 1, matrix[i - 1, j - 1] + cost);
    }
  }

  /** Row by row, every cell holds the distance of the two prefixes it stands for. */
  method LevenshteinDistance(a: Bytes, b: Bytes) returns (d: nat)
    ensures d == Distance(a, b)
  {
    if |a| == 0 {
      return |b|;
    }
    if |b| == 0 {
      return |a|;
    }
    var matrix := new nat[|a| + 1, |b| + 1];
    for i := 0 to |a| + 1
      invariant forall k :: 0 <= k < i ==> matrix[k, 0] == k
    {
      matrix[i, 0] := i;
    }
    for j := 0 to |b| + 1
      invariant forall k :: 0 <= k <= |a| ==> matrix[k, 0] == k
      invariant forall k :: 0 <= k < j ==> matrix[0, k] == k
    {
      matrix[0, j] := j;
    }
    for i := 1 to |a| + 1
      invariant forall k :: 0 <= k <= |a| ==> matrix[k, 0] == k
      invariant Holds(matrix, i - 1, DistanceRow(a, b, i - 1), |b| + 1)
    {
      DistanceRowFollows(a, b, i);
      FillRow(matrix, a, b, i, DistanceRow(a, b, i - 1), DistanceRow(a, b, i));
    }
    assert a[..|a|] == a && b[..|b|] == b;
    d := matrix[|a|, |b|];
  }

  // ---- Edit scripts ----

  datatype Edit = Keep | Delete | Insert(c: byte) | Substitute(c: byte)
  datatype Script = Done | Then(rest: Script, last: Edit)

  /** What a script makes of a string, which it must use up; None if it does not fit. */
  function Apply(a: Bytes, s: Script): Option<Bytes> {
    match s
    case Done => if a == [] then Some([]) else None
    case Then(rest, e) =>
      if e.Insert? then
        var r := Apply(a, rest);
        if r.None? then None else Some(r.value + [e.c])
      else if a == [] then None
      else
        var r := Apply(a[..|a| - 1], rest);
        if r.None? || e.Delete? then r
        else Some(r.value + [if e.Keep? then a[|a| - 1] else e.c])
  }

  function Cost(s: Script): nat {
    match s
    case Done => 0
    case Then(rest, e) => Cost(rest) + if e.Keep? then 0 else 1
  }

  lemma {:induction false} NoScriptIsCheaper(a: Bytes, s: Script)
    requires Apply(a, s).Some?
    ensures Distance(a, Apply(a, s).value) <= Cost(s)
  {
    match s
    case Done =>
    case Then(rest, e) =>
      var b := Apply(a, s).value;
      if e.Insert? {
        NoScriptIsCheaper(a, rest);
        assert b[..|b| - 1] == Apply(a, rest).value;
      } else {
        NoScriptIsCheaper(a[..|a| - 1], rest);
        if !e.Delete? {
          assert b[..|b| - 1] == Apply(a[..|a| - 1], rest).value;
        }
      }
  }

  lemma {:induction false} CheapestScript(a: Bytes, b: Bytes) returns (s: Script)
    ensures Apply(a, s) == Some(b) && Cost(s) == Distance(a, b)
  {
    if a == [] && b == [] {
      s := Done;
    } else if a == [] {
      s := CheapestScript(a, b[..|b| - 1]);
      s := Then(s, Insert(b[|b| - 1]));
      assert b == b[..|b| - 1] + [b[|b| - 1]];
    } else if b == [] {
      s := CheapestScript(a[..|a| - 1], b);
      s := Then(s, Delete);
    } else {
      var a', b', x, y := a[..|a| - 1], b[..|b| - 1], a[|a| - 1], b[|b| - 1];
      assert b == b' + [y];
      if Distance(a, b) == Distance(a', b) + 1 {
        s := CheapestScript(a', b);
        s := Then(s, Delete);
      } else if Distance(a, b) == Distance(a, b') + 1 {
        s := CheapestScript(a, b');
        s := Then(s, Insert(y));
      } else {
        s := CheapestScript(a', b');
        s := Then(s, if x == y then Keep else Substitute(y));
      }
    }
  }

  /** The distance is the least cost of any script from one string to the other. */
  lemma DistanceIsLeastCost(a: Bytes, b: Bytes)
    ensures exists s :: Apply(a, s) == Some(b) && Cost(s) == Distance(a, b)
    ensures forall s :: Apply(a, s) == Some(b) ==> Distance(a, b) <= Cost(s)
  {
    var s := CheapestScript(a, b);
    forall t | Apply(a, t) == Some(b) ensures Distance(a, b) <= Cost(t) {
      NoScriptIsCheaper(a, t);
    }
  }

  // ---- A metric ----

  lemma {:induction false} Symmetric(a: Bytes, b: Bytes)
    ensures Distance(a, b) == Distance(b, a)
  {
    if a != [] && b != [] {
      Symmetric(a[..|a| - 1], b);
      Symmetric(a, b[..|b| - 1]);
      Symmetric(a[..|a| - 1], b[..|b| - 1]);
    }
  }

  lemma {:induction false} ZeroIffEqual(a: Bytes, b: Bytes)
    ensures Distance(a, b) == 0 <==> a == b
  {
    if a != [] && b != [] {
      ZeroIffEqual(a[..|a| - 1], b[..|b| - 1]);
      assert a == a[..|a| - 1] + [a[|a| - 1]] && b == b[..|b| - 1] + [b[|b| - 1]];
    }
  }

  /** Two scripts in a row can be done in one, at no more than their cost together. */
  lemma {:induction false} Compose(a: Bytes, s: Script, t: Script) returns (u: Script)
    requires Apply(a, s).Some? && Apply(Apply(a, s).value, t).Some?
    ensures Apply(a, u) == Apply(Apply(a, s).value, t)
    ensures Cost(u) <= Cost(s) + Cost(t)
    decreases s, t
  {
    var b := Apply(a, s).value;
    if t.Then? && t.last.Insert? {
      u := Compose(a, s, t.rest);
      u := Then(u, t.last);
    } else if s.Then? && s.last.Delete? {
      u := Compose(a[..|a| - 1], s.rest, t);
      u := Then(u, Delete);
    } else if s.Done? {
      u := t;
    } else {
      assert b[..|b| - 1] == (if s.last.Insert? then Apply(a, s.rest) else Apply(a[..|a| - 1], s.rest)).value;
      if s.last.Insert? {
        u := Compose(a, s.rest, t.rest);
        match t.last
        case Keep => u := Then(u, s.last);
        case Substitute(c) => u := Then(u, Insert(c));
        case _ =>
      } else {
        u := Compose(a[..|a| - 1], s.rest, t.rest);
        u := Then(u, if t.last.Keep? then s.last else t.last);
      }
    }
  }

  lemma {:induction false} TriangleInequality(a: Bytes, b: Bytes, c: Bytes)
    ensures Distance(a, c) <= Distance(a, b) + Distance(b, c)
  {
    var s := CheapestScript(a, b);
    var t := CheapestScript(b, c);
    var u := Compose(a, s, t);
    NoScriptIsCheaper(a, u);
  }

  // ---- The closest candidate ----

  function Threshold(key: Bytes): nat {
    if |key| > 5 then |key| * 2 / 5 else 3
  }

  /** The loop starts from a distance of `|key| + 1`, so a candidate must also be nearer than that. */
  function Limit(key: Bytes): nat {
    if Threshold(key) < |key| then Threshold(key) else |key|
  }

  /** Index `i` has the first of the least distances within the limit, among the first `n`. */
  predicate Closest(ds: seq<nat>, limit: nat, n: nat, i: nat)
    requires n <= |ds|
  {
    && i < n && ds[i] <= limit
    && (forall j :: 0 <= j < n ==> ds[i] <= ds[j])
    && (forall j :: 0 <= j < i ==> ds[i] < ds[j])
  }

  predicate NoneWithin(ds: seq<nat>, limit: nat, n: nat)
    requires n <= |ds|
  {
    forall j :: 0 <= j < n ==> ds[j] > limit
  }

  /** Key and candidates are compared, and the answer given, in lower case. */
  function Distances(lower: Bytes -> Bytes, key: Bytes, cs: seq<Bytes>): seq<nat> {
    seq(|cs|, i requires 0 <= i < |cs| => Distance(lower(key), lower(cs[i])))
  }

  method FindClosestMatch(lower: Bytes -> Bytes, key0: Bytes, candidates: seq<Bytes>) returns (best: Bytes)
    ensures var ds, limit := Distances(lower, key0, candidates), Limit(lower(key0));
            if NoneWithin(ds, limit, |ds|) then best == []
            else exists i: nat :: Closest(ds, limit, |ds|, i) && best == lower(candidates[i])
  {
    best := [];
    ghost var at: Option<nat> := None;
    var key := lower(key0);
    ghost var ds, limit := Distances(lower, key0, candidates), Limit(key);
    var bestDistance := |key| + 1;
    for i := 0 to |candidates|
      invariant at.None? ==> best == [] && bestDistance == |key| + 1 && NoneWithin(ds, limit, i)
      invariant at.Some? ==> Closest(ds, limit, i, at.value) && bestDistance == ds[at.value]
      invariant at.Some? ==> best == lower(candidates[at.value])
    {
      var candidate := lower(candidates[i]);
      var distance := LevenshteinDistance(key, candidate);
      assert distance == ds[i];
      var threshold := Threshold(key);
      ClosestStep(ds, limit, i, at);
      if distance < bestDistance && distance <= threshold {
        bestDistance, best, at := distance, candidate, Some(i);
      }
    }
  }

  lemma ClosestStep(ds: seq<nat>, limit: nat, n: nat, at: Option<nat>)
    requires n < |ds| && if at.Some? then Closest(ds, limit, n, at.value) else NoneWithin(ds, limit, n)
    ensures if ds[n] <= limit && (at.None? || ds[n] < ds[at.value]) then Closest(ds, limit, n + 1, n)
            else if at.Some? then Closest(ds, limit, n + 1, at.value)
            else NoneWithin(ds, limit, n + 1)
  {
  }

  /** Strings without a common byte are as far apart as the longer is long. */
  lemma {:induction false} NothingInCommon(a: Bytes, b: Bytes)
    requires forall x :: x in a ==> x !in b
    ensures Distance(a, b) == if |a| < |b| then |b| else |a|
  {
    if a != [] && b != [] {
      var a', b' := a[..|a| - 1], b[..|b| - 1];
      assert a[|a| - 1] in a && b[|b| - 1] in b;
      NothingInCommon(a', b);
      NothingInCommon(a, b');
      NothingInCommon(a', b');
    }
  }

  lemma FarCandidate(key: Bytes) returns (c: Bytes)
    requires |key| < 3
    ensures Distance(key, c) == 3
  {
    var x: byte :| 0 <= x < 3 && x !in key by {
      if 0 in key && 1 in key {
        assert key == [0, 1] || key == [1, 0];
        assert 2 !in key;
      }
    }
    c := [x, x, x];
    NothingInCommon(key, c);
  }

  /** Everything within the threshold is near enough to be suggested exactly for keys of three bytes
      or more: the search starts from the length of the key, which a shorter key lets no candidate at
      the threshold beat. */
  lemma ShortKeysSuggestLess(key: Bytes)
    ensures (forall c :: Distance(key, c) <= Threshold(key) ==> Distance(key, c) <= Limit(key)) <==> |key| >= 3
  {
    if |key| < 3 {
      var c := FarCandidate(key);
      assert Limit(key) < Distance(key, c) <= Threshold(key);
    }
  }

  // ---- The documented rule ----

  lemma {:induction false} AtLeastLengths(a: Bytes, b: Bytes)
    ensures Distance(a, b) >= |a| - |b| && Distance(a, b) >= |b| - |a|
  {
    if a != [] && b != [] {
      AtLeastLengths(a[..|a| - 1], b);
      AtLeastLengths(a, b[..|b| - 1]);
      AtLeastLengths(a[..|a| - 1], b[..|b| - 1]);
    }
  }

  /** Dropping the last bytes of a string costs their number. */
  lemma {:induction false} Shortened(a: Bytes, d: nat)
    requires d <= |a|
    ensures Distance(a, a[..|a| - d]) == d
  {
    var b := a[..|a| - d];
    AtLeastLengths(a, b);
    if d == 0 {
      assert b == a;
      ZeroIffEqual(a, b);
    } else {
      var a' := a[..|a| - 1];
      assert a'[..|a'| - (d - 1)] == b;
      Shortened(a', d - 1);
    }
  }

  /** The comment at the threshold: fewer than 3 edits, or fewer than 40 percent of the key. */
  predicate AsDocumented(key: Bytes, d: nat) { d < 3 || 5 * d < 2 * |key| }

  /** Keys for which the threshold itself keeps to the comment. */
  predicate Compliant(key: Bytes) { |key| < 3 || (|key| > 5 && |key| % 5 != 0) }

  lemma LimitAsDocumented(key: Bytes, d: nat)
    requires d <= Limit(key)
    ensures Compliant(key) ==> AsDocumented(key, d)
    ensures !Compliant(key) && d == Limit(key) ==> !AsDocumented(key, d)
  {
  }

  /** Every suggestion keeps to the comment exactly for keys of fewer than 3 bytes, and of more than 5 if
      their length is no multiple of 5: otherwise the threshold itself is allowed. */
  lemma DocumentedRuleIff(key: Bytes)
    ensures (forall c :: Distance(key, c) <= Limit(key) ==> AsDocumented(key, Distance(key, c)))
       <==> |key| < 3 || (|key| > 5 && |key| % 5 != 0)
  {
    if Compliant(key) {
      forall c | Distance(key, c) <= Limit(key) ensures AsDocumented(key, Distance(key, c)) {
        LimitAsDocumented(key, Distance(key, c));
      }
    } else {
      var d := Limit(key);
      Shortened(key, d);
      LimitAsDocumented(key, d);
      assert !AsDocumented(key, Distance(key, key[..|key| - d]));
    }
  }
}

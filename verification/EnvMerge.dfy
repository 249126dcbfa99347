/** Merging environment sources, core/envfile.go: later sources win, in place. */
module EnvMerge {
  import opened Prelude

  /** The position of the first '=', or the length if there is none. */
  function EqualsAt(e: string): (i: nat)
    ensures i <= |e| && (i < |e| ==> e[i] == '=') && (forall k :: 0 <= k < i ==> e[k] != '=')
  {
    if e == "" || e[0] == '=' then 0 else EqualsAt(e[1..]) + 1
  }

  predicate IsAssignment(e: string) { EqualsAt(e) < |e| }
  function Key(e: string): string { e[..EqualsAt(e)] }

  // ---- The simple form ----

  /** Last wins: the last assignment of a key. */
  function LastOf(entries: seq<string>, key: string): Option<string> {
    if entries == [] then None
    else
      var last := entries[|entries| - 1];
      if IsAssignment(last) && Key(last) == key then Some(last) else LastOf(entries[..|entries| - 1], key)
  }

  /** The keys in the order they first appear. */
  function Keys(entries: seq<string>): seq<string> {
    if entries == [] then []
    else
      var earlier, last := Keys(entries[..|entries| - 1]), entries[|entries| - 1];
      if IsAssignment(last) && Key(last) !in earlier then earlier + [Key(last)] else earlier
  }

  lemma {:induction false} KeysHaveLast(entries: seq<string>, key: string)
    ensures key in Keys(entries) <==> LastOf(entries, key).Some?
    ensures var last := LastOf(entries, key); last.Some? ==> IsAssignment(last.value) && Key(last.value) == key
  {
    if entries != [] {
      KeysHaveLast(entries[..|entries| - 1], key);
    }
  }

  lemma {:induction false} KeysAreDistinct(entries: seq<string>)
    ensures forall i, j :: 0 <= i < j < |Keys(entries)| ==> Keys(entries)[i] != Keys(entries)[j]
  {
    if entries != [] {
      KeysAreDistinct(entries[..|entries| - 1]);
    }
  }

  predicate Assigns(e: string, key: string) { IsAssignment(e) && Key(e) == key }

  /** An entry assigns a key exactly if it is the key, an equals sign and some value, the key without one. */
  lemma AssignsIff(e: string, key: string)
    ensures Assigns(e, key) <==> '=' !in key && key + "=" <= e
  {
    var i := EqualsAt(e);
    if Assigns(e, key) {
      assert e == e[..i] + "=" + e[i + 1..];
    }
    if '=' !in key && key + "=" <= e {
      assert e[|key|] == (key + "=")[|key|] == '=' && forall k :: 0 <= k < |key| ==> e[k] == key[k];
      assert i == |key|;
      assert e[..i] == key;
    }
  }

  /** The last assignment is the entry after which the key is not assigned again. */
  lemma {:induction false} LastOfIs(entries: seq<string>, key: string, i: nat)
    requires i < |entries| && Assigns(entries[i], key)
    requires forall k :: i < k < |entries| ==> !Assigns(entries[k], key)
    ensures LastOf(entries, key) == Some(entries[i])
  {
    if i < |entries| - 1 {
      LastOfIs(entries[..|entries| - 1], key, i);
    }
  }

  /** Position `i` is the first that assigns the key. */
  predicate FirstAt(entries: seq<string>, key: string, i: nat) {
    i < |entries| && Assigns(entries[i], key) && forall k :: 0 <= k < i ==> !Assigns(entries[k], key)
  }

  lemma {:induction false} AssignedIsKey(entries: seq<string>, k: nat)
    requires k < |entries| && IsAssignment(entries[k])
    ensures Key(entries[k]) in Keys(entries)
  {
    if k < |entries| - 1 {
      AssignedIsKey(entries[..|entries| - 1], k);
    }
  }

  lemma StillFirst(entries: seq<string>, key: string, i: nat)
    requires entries != [] && FirstAt(entries[..|entries| - 1], key, i)
    ensures FirstAt(entries, key, i)
  {
    var front := entries[..|entries| - 1];
    assert forall k :: 0 <= k < |front| ==> front[k] == entries[k];
  }

  lemma NewFirst(front: seq<string>, e: string)
    requires IsAssignment(e) && Key(e) !in Keys(front)
    ensures FirstAt(front + [e], Key(e), |front|)
  {
    forall k | 0 <= k < |front| ensures !Assigns((front + [e])[k], Key(e)) {
      if IsAssignment(front[k]) {
        AssignedIsKey(front, k);
      }
    }
  }

  /** The keys are exactly those assigned, in the order of their first assignments. */
  lemma {:induction false} KeysInOrder(entries: seq<string>) returns (first: seq<nat>)
    ensures |first| == |Keys(entries)| && (forall a, b :: 0 <= a < b < |first| ==> first[a] < first[b])
    ensures forall a :: 0 <= a < |first| ==> FirstAt(entries, Keys(entries)[a], first[a])
  {
    if entries == [] {
      first := [];
    } else {
      var front, last := entries[..|entries| - 1], entries[|entries| - 1];
      var earlier := KeysInOrder(front);
      forall a | 0 <= a < |earlier| ensures FirstAt(entries, Keys(front)[a], earlier[a]) {
        StillFirst(entries, Keys(front)[a], earlier[a]);
      }
      first := earlier;
      if IsAssignment(last) && Key(last) !in Keys(front) {
        NewFirst(front, last);
        assert entries == front + [last];
        first := earlier + [|front|];
      }
    }
  }

  /** Each key once, in order of first appearance, with its last assignment. */
  ghost predicate IsMerged(entries: seq<string>, result: seq<string>) {
    && |result| == |Keys(entries)|
    && forall i :: 0 <= i < |result| ==> LastOf(entries, Keys(entries)[i]) == Some(result[i])
  }

  lemma MergeIsUnique(entries: seq<string>, a: seq<string>, b: seq<string>)
    requires IsMerged(entries, a) && IsMerged(entries, b)
    ensures a == b
  {
    forall i | 0 <= i < |a| ensures a[i] == b[i] {
      assert LastOf(entries, Keys(entries)[i]) == Some(a[i]);
    }
  }

  // ---- The indexed form ----

  class Merger {
    var seen: map<string, nat>
    var result: seq<string>

    /** `seen` is the index of the result by key, and the result merges `entries`. */
    ghost predicate Valid(entries: seq<string>) reads this {
      && IsMerged(entries, result)
      && (forall k :: k in seen <==> k in Keys(entries))
      && (forall k :: k in seen ==> seen[k] < |result| && Keys(entries)[seen[k]] == k)
    }

    constructor ()
      ensures Valid([])
    {
      seen, result := map[], [];
    }

    method AddEntry(entry: string, ghost before: seq<string>)
      requires Valid(before)
      modifies this
      ensures Valid(before + [entry])
    {
      var idx := EqualsAt(entry);
      assert (before + [entry])[..|before|] == before;
      KeysAreDistinct(before);
      if idx == |entry| {
        assert forall k :: LastOf(before + [entry], k) == LastOf(before, k);
        return;
      }
      var key := entry[..idx];
      forall k ensures LastOf(before + [entry], k) == if k == key then Some(entry) else LastOf(before, k) {}
      if key in seen {
        result := result[seen[key] := entry];
      } else {
        seen := seen[key := |result|];
        result := result + [entry];
      }
    }

    method Add(entries: seq<string>, ghost before: seq<string>)
      requires Valid(before)
      modifies this
      ensures Valid(before + entries)
    {
      assert before + entries[..0] == before;
      for i := 0 to |entries|
        invariant Valid(before + entries[..i])
      {
        AddEntry(entries[i], before + entries[..i]);
        assert before + entries[..i] + [entries[i]] == before + entries[..i + 1];
      }
      assert entries[..|entries|] == entries;
    }
  }

  method MergeEnvironments(envFiles: seq<string>, envFrom: seq<string>, explicit: seq<string>) returns (r: seq<string>)
    ensures IsMerged(envFiles + envFrom + explicit, r)
  {
    if |envFiles| == 0 && |envFrom| == 0 && |explicit| == 0 {
      return [];
    }
    var m := new Merger();
    m.Add(envFiles, []);
    assert [] + envFiles == envFiles;
    m.Add(envFrom, envFiles);
    m.Add(explicit, envFiles + envFrom);
    r := m.result;
  }

  // ---- Merging in stages ----

  lemma {:induction false} LastOfConcat(a: seq<string>, b: seq<string>, key: string)
    ensures LastOf(a + b, key) == if LastOf(b, key).Some? then LastOf(b, key) else LastOf(a, key)
  {
    if b == [] {
      assert a + b == a;
    } else {
      LastOfConcat(a, b[..|b| - 1], key);
      assert (a + b)[..|a + b| - 1] == a + b[..|b| - 1];
    }
  }

  /** Keys of a list put in front of another only depend on the first list's keys. */
  lemma {:induction false} KeysConcat(a: seq<string>, a': seq<string>, b: seq<string>)
    requires Keys(a) == Keys(a')
    ensures Keys(a + b) == Keys(a' + b)
  {
    if b == [] {
      assert a + b == a && a' + b == a';
    } else {
      KeysConcat(a, a', b[..|b| - 1]);
      assert (a + b)[..|a + b| - 1] == a + b[..|b| - 1] && (a' + b)[..|a' + b| - 1] == a' + b[..|b| - 1];
    }
  }

  lemma OneMore(front: seq<string>, e: string, key: string)
    requires IsAssignment(e)
    ensures Keys(front + [e]) == if Key(e) in Keys(front) then Keys(front) else Keys(front) + [Key(e)]
    ensures LastOf(front + [e], key) == if Key(e) == key then Some(e) else LastOf(front, key)
  {
    assert (front + [e])[..|front|] == front;
  }

  lemma KeysPrefix(keys: seq<string>, n: nat)
    requires 0 < n <= |keys| && forall i, j :: 0 <= i < j < |keys| ==> keys[i] != keys[j]
    ensures keys[..n] == keys[..n - 1] + [keys[n - 1]] && keys[n - 1] !in keys[..n - 1]
  {
  }

  lemma PrefixStep(prefix: seq<string>, k: string, front: seq<string>, e: string, key: string, last: Option<string>)
    requires IsAssignment(e) && Key(e) == k && k !in prefix && Keys(front) == prefix
    requires LastOf(front, key) == (if key in prefix then last else None) && (key == k ==> last == Some(e))
    ensures Keys(front + [e]) == prefix + [k]
    ensures LastOf(front + [e], key) == if key in prefix + [k] then last else None
  {
    OneMore(front, e, key);
  }

  lemma MergedAt(entries: seq<string>, m: seq<string>, i: nat)
    requires IsMerged(entries, m) && i < |m|
    ensures LastOf(entries, Keys(entries)[i]) == Some(m[i]) && IsAssignment(m[i]) && Key(m[i]) == Keys(entries)[i]
  {
    KeysHaveLast(entries, Keys(entries)[i]);
  }

  lemma {:induction false} MergedPrefix(entries: seq<string>, m: seq<string>, n: nat, key: string)
    requires IsMerged(entries, m) && n <= |m|
    ensures Keys(m[..n]) == Keys(entries)[..n]
    ensures LastOf(m[..n], key) == if key in Keys(entries)[..n] then LastOf(entries, key) else None
  {
    if n > 0 {
      var keys, front, e := Keys(entries), m[..n - 1], m[n - 1];
      MergedPrefix(entries, m, n - 1, key);
      KeysAreDistinct(entries);
      KeysPrefix(keys, n);
      MergedAt(entries, m, n - 1);
      PrefixStep(keys[..n - 1], keys[n - 1], front, e, key, LastOf(entries, key));
      assert m[..n] == front + [e];
    }
  }

  /** A merged list has the keys and the last assignments of what it was merged from. */
  lemma MergedIsEquivalent(entries: seq<string>, m: seq<string>, key: string)
    requires IsMerged(entries, m)
    ensures Keys(m) == Keys(entries) && LastOf(m, key) == LastOf(entries, key)
  {
    MergedPrefix(entries, m, |m|, key);
    assert m[..|m|] == m && Keys(entries)[..|m|] == Keys(entries);
    KeysHaveLast(entries, key);
  }

  /** Merging a merged list with more gives the same as merging everything at once. */
  lemma MergeInStages(a: seq<string>, m: seq<string>, b: seq<string>, r: seq<string>)
    requires IsMerged(a, m)
    ensures IsMerged(m + b, r) <==> IsMerged(a + b, r)
  {
    MergedIsEquivalent(a, m, "");
    KeysConcat(a, m, b);
    forall k ensures LastOf(m + b, k) == LastOf(a + b, k) {
      LastOfConcat(a, b, k);
      LastOfConcat(m, b, k);
      MergedIsEquivalent(a, m, k);
    }
  }
}

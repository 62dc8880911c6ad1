/** Collections of a repo: adjacent dedup over ordered keys is full dedup. */
module Collections {
  import opened Wrappers
  import opened Lex

  /** Index of the first '/', or the length without one. */
  function Slash(key: string): (n: nat)
    ensures n <= |key| && (forall i :: 0 <= i < n ==> key[i] != '/') && (n < |key| ==> key[n] == '/')
  {
    if key == "" then 0 else if key[0] == '/' then 0 else 1 + Slash(key[1..])
  }

  /** `split_once('/')`, keeping the part before. */
  function CollectionOf(key: string): Option<string> {
    var n := Slash(key);
    if n < |key| then Some(key[..n]) else None
  }

  ghost predicate Sorted(keys: seq<string>) {
    forall i, j :: 0 <= i < j < |keys| ==> Less(keys[i], keys[j])
  }

  /** The collection names that occur. */
  ghost function Names(keys: seq<string>): set<string> {
    set i | 0 <= i < |keys| && CollectionOf(keys[i]).Some? :: CollectionOf(keys[i]).value
  }

  ghost predicate Distinct(names: seq<string>) {
    forall i, j :: 0 <= i < j < |names| ==> names[i] != names[j]
  }

  /** A key belongs to collection `c` exactly when it starts with `c/` and `c` has no slash. */
  lemma CollectionIsPrefix(key: string, c: string)
    ensures CollectionOf(key) == Some(c) <==> '/' !in c && c + "/" <= key
  {
    var n := Slash(key);
    if CollectionOf(key) == Some(c) {
      assert key[..n + 1] == c + "/";
    }
    if '/' !in c && c + "/" <= key {
      assert key[|c|] == (c + "/")[|c|] == '/';
      assert forall i :: 0 <= i < |c| ==> key[i] == (c + "/")[i] == c[i];
      assert n == |c| && key[..n] == c;
    }
  }

  /** Keys of one collection are contiguous. */
  lemma CollectionContiguous(a: string, b: string, z: string, c: string)
    requires Less(a, b) && Less(b, z) && CollectionOf(a) == Some(c) && CollectionOf(z) == Some(c)
    ensures CollectionOf(b) == Some(c)
  {
    CollectionIsPrefix(a, c);
    CollectionIsPrefix(z, c);
    PrefixContiguous(c + "/", a, b, z);
    CollectionIsPrefix(b, c);
  }

  /** The name that a name in `out` was pushed for. */
  ghost predicate From(keys: seq<string>, n: nat, name: string, at: nat)
    requires n <= |keys|
  {
    at < n && CollectionOf(keys[at]) == Some(name)
  }

  lemma NewIsNew(keys: seq<string>, n: nat, out: seq<string>, at: seq<nat>, j: nat)
    requires Sorted(keys) && n < |keys| && |at| == |out| && out != [] && j < |out| - 1
    requires forall i :: 0 <= i < |out| ==> From(keys, n, out[i], at[i])
    requires forall i, k :: 0 <= i < k < |at| ==> at[i] < at[k]
    requires Distinct(out) && CollectionOf(keys[n]).Some?
    ensures CollectionOf(keys[n]) != Some(out[j])
  {
    var last := |out| - 1;
    assert From(keys, n, out[j], at[j]) && From(keys, n, out[last], at[last]);
    if CollectionOf(keys[n]) == Some(out[j]) {
      CollectionContiguous(keys[at[j]], keys[at[last]], keys[n], out[j]);
      assert false;
    }
  }

  /** `list_collections`: compares each collection only with the last one pushed, and still
      reports every collection exactly once. */
  method ListCollections(keys: seq<string>) returns (out: seq<string>)
    requires Sorted(keys)
    ensures Distinct(out) && (set c | c in out) == Names(keys)
  {
    out := [];
    ghost var at: seq<nat> := [];
    for n := 0 to |keys|
      invariant |at| == |out| && Distinct(out)
      invariant forall i :: 0 <= i < |out| ==> From(keys, n, out[i], at[i])
      invariant forall i, k :: 0 <= i < k < |at| ==> at[i] < at[k]
      invariant forall i :: 0 <= i < n && CollectionOf(keys[i]).Some? ==> CollectionOf(keys[i]).value in out
    {
      var c := CollectionOf(keys[n]);
      if c.Some? && (out == [] || out[|out| - 1] != c.value) {
        forall j | 0 <= j < |out| ensures out[j] != c.value {
          if j < |out| - 1 {
            NewIsNew(keys, n, out, at, j);
          }
        }
        out := out + [c.value];
        at := at + [n];
      }
    }
    forall c | c in out ensures c in Names(keys) {
      var i :| 0 <= i < |out| && out[i] == c;
      assert From(keys, |keys|, out[i], at[i]);
    }
  }

  /** `describe_repo`: the same keys collected into a set. */
  method DescribeCollections(keys: seq<string>) returns (names: set<string>)
    ensures names == Names(keys)
  {
    names := {};
    for n := 0 to |keys|
      invariant names == Names(keys[..n])
    {
      var c := CollectionOf(keys[n]);
      NamesGrow(keys, n);
      if c.Some? {
        names := names + {c.value};
      }
    }
    assert keys[..|keys|] == keys;
  }

  lemma NamesGrow(keys: seq<string>, n: nat)
    requires n < |keys|
    ensures Names(keys[..n + 1]) ==
            Names(keys[..n]) + (if CollectionOf(keys[n]).Some? then {CollectionOf(keys[n]).value} else {})
  {
    var a, b := keys[..n], keys[..n + 1];
    assert b[n] == keys[n] && forall i :: 0 <= i < n ==> a[i] == b[i];
    forall c | c in Names(b)
      ensures c in Names(a) + (if CollectionOf(keys[n]).Some? then {CollectionOf(keys[n]).value} else {})
    {
      var i :| 0 <= i < |b| && CollectionOf(b[i]) == Some(c);
      if i < n { assert CollectionOf(a[i]) == Some(c); }
    }
    forall c | c in Names(a) ensures c in Names(b) {
      var i :| 0 <= i < |a| && CollectionOf(a[i]) == Some(c);
      assert CollectionOf(b[i]) == Some(c);
    }
  }

  /** The two listings may order collections differently: '-' sorts before '/', so the tree
      yields "a-b" before "a", while "a" comes first as a name. */
  lemma OrdersDiffer()
    ensures Less("a-b/x", "a/x") && Less("a", "a-b")
    ensures CollectionOf("a-b/x") == Some("a-b") && CollectionOf("a/x") == Some("a")
  {
    assert "a-b/x"[1..] == "-b/x" && "a/x"[1..] == "/x";
    assert "a"[1..] == "" && "a-b"[1..] == "-b";
    CollectionIsPrefix("a-b/x", "a-b");
    CollectionIsPrefix("a/x", "a");
    assert "a-b" + "/" <= "a-b/x" && "a" + "/" <= "a/x";
  }
}

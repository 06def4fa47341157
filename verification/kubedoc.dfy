/** A decoded YAML document as the core sees it: mappings keep their entries
    in document order, sequences their items, and every scalar is its text.
    The core reads and edits mappings through Go hash maps, or means to; on
    the keys a document can hold (YAML rejects duplicate keys) `Lookup`,
    `Set` and `Remove` below behave as the hash map's index, assignment and
    `delete`. Where the decoder hands over an ordered `yaml.MapSlice` instead,
    the module that reads it says so. */
module KubeDoc {
  import opened Wrappers

  datatype Node =
    | Map(entries: seq<(string, Node)>)
    | List(items: seq<Node>)
    | Scalar(text: string)

  type Entries = seq<(string, Node)>

  /** No key occurs twice. */
  predicate UniqueKeys(es: Entries) {
    forall i, j :: 0 <= i < j < |es| ==> es[i].0 != es[j].0
  }

  /** `m[k]`: the value of the first entry with key `k`. */
  function Lookup(es: Entries, k: string): (r: Option<Node>)
    ensures r.None? <==> forall i :: 0 <= i < |es| ==> es[i].0 != k
  {
    if |es| == 0 then None
    else if es[0].0 == k then Some(es[0].1)
    else Lookup(es[1..], k)
  }

  /** Looking up in a mapping with one entry in front. */
  lemma LookupCons(e: (string, Node), rest: Entries, k: string)
    ensures Lookup([e] + rest, k) == if e.0 == k then Some(e.1) else Lookup(rest, k)
  {
    assert ([e] + rest)[1..] == rest;
  }

  /** A found value belongs to an entry with that key. */
  lemma {:induction false} LookupFound(es: Entries, k: string)
    requires Lookup(es, k).Some?
    ensures exists i :: 0 <= i < |es| && es[i] == (k, Lookup(es, k).value)
  {
    if es[0].0 != k {
      LookupFound(es[1..], k);
      var i :| 0 <= i < |es[1..]| && es[1..][i] == (k, Lookup(es, k).value);
      assert es[i + 1] == es[1..][i];
    }
  }

  /** `m[k] = v`: replace the value of the entry with key `k`, or append a new
      entry when there is none. */
  function Set(es: Entries, k: string, v: Node): (r: Entries)
    ensures Lookup(r, k) == Some(v)
    ensures |r| == if Lookup(es, k).Some? then |es| else |es| + 1
  {
    if |es| == 0 then [(k, v)]
    else if es[0].0 == k then [(k, v)] + es[1..]
    else
      var r := [es[0]] + Set(es[1..], k, v);
      LookupCons(es[0], Set(es[1..], k, v), k);
      r
  }

  /** Assigning one key leaves every other key's value alone. */
  lemma {:induction false} SetOthers(es: Entries, k: string, v: Node, k': string)
    requires k' != k
    ensures Lookup(Set(es, k, v), k') == Lookup(es, k')
  {
    if |es| == 0 {
    } else if es[0].0 == k {
      LookupCons((k, v), es[1..], k');
      LookupCons(es[0], es[1..], k');
      assert es == [es[0]] + es[1..];
    } else {
      SetOthers(es[1..], k, v, k');
      LookupCons(es[0], Set(es[1..], k, v), k');
    }
  }

  /** The keys after an assignment: the old ones, plus `k`. */
  lemma {:induction false} SetKeys(es: Entries, k: string, v: Node)
    ensures forall i :: 0 <= i < |Set(es, k, v)| ==>
              Set(es, k, v)[i].0 == k || exists j :: 0 <= j < |es| && es[j].0 == Set(es, k, v)[i].0
  {
    if |es| > 0 && es[0].0 != k {
      SetKeys(es[1..], k, v);
      var r := Set(es, k, v);
      forall i | 0 <= i < |r|
        ensures r[i].0 == k || exists j :: 0 <= j < |es| && es[j].0 == r[i].0
      {
        if i > 0 {
          assert r[i] == Set(es[1..], k, v)[i - 1];
          if r[i].0 != k {
            var j :| 0 <= j < |es[1..]| && es[1..][j].0 == r[i].0;
            assert es[j + 1] == es[1..][j];
          }
        }
      }
    } else if |es| > 0 {
      var r := Set(es, k, v);
      forall i | 0 <= i < |r|
        ensures r[i].0 == k || exists j :: 0 <= j < |es| && es[j].0 == r[i].0
      {
        if i > 0 {
          assert r[i] == es[i];
        }
      }
    }
  }

  /** Assignment keeps a mapping free of duplicate keys. */
  lemma {:induction false} SetUnique(es: Entries, k: string, v: Node)
    requires UniqueKeys(es)
    ensures UniqueKeys(Set(es, k, v))
  {
    if |es| > 0 {
      var r := Set(es, k, v);
      if es[0].0 == k {
        forall i, j | 0 <= i < j < |r| ensures r[i].0 != r[j].0 {
          assert r[j] == es[j];
          if i > 0 {
            assert r[i] == es[i];
          }
        }
      } else {
        var t := es[1..];
        assert UniqueKeys(t) by {
          forall i, j | 0 <= i < j < |t| ensures t[i].0 != t[j].0 {
            assert t[i] == es[i + 1] && t[j] == es[j + 1];
          }
        }
        SetUnique(t, k, v);
        SetKeys(t, k, v);
        assert Lookup(es, k) == Lookup(t, k);
        forall i, j | 0 <= i < j < |r| ensures r[i].0 != r[j].0 {
          var rt := Set(t, k, v);
          assert r[j] == rt[j - 1];
          if i == 0 {
            if rt[j - 1].0 == k {
            } else {
              var m :| 0 <= m < |t| && t[m].0 == rt[j - 1].0;
              assert t[m] == es[m + 1];
            }
          } else {
            assert r[i] == rt[i - 1];
          }
        }
      }
    }
  }

  /** `delete(m, k)`. */
  function Remove(es: Entries, k: string): (r: Entries)
    ensures Lookup(r, k) == None
    ensures |r| <= |es|
    ensures forall i :: 0 <= i < |r| ==> r[i] in es
  {
    if |es| == 0 then []
    else if es[0].0 == k then Remove(es[1..], k)
    else
      var rest := Remove(es[1..], k);
      LookupCons(es[0], rest, k);
      [es[0]] + rest
  }

  /** Deleting one key leaves every other key's value alone. */
  lemma {:induction false} RemoveOthers(es: Entries, k: string, k': string)
    requires k' != k
    ensures Lookup(Remove(es, k), k') == Lookup(es, k')
  {
    if |es| > 0 {
      RemoveOthers(es[1..], k, k');
      LookupCons(es[0], es[1..], k');
      assert es == [es[0]] + es[1..];
      if es[0].0 != k {
        LookupCons(es[0], Remove(es[1..], k), k');
      }
    }
  }

  /** Deleting an absent key changes nothing. */
  lemma {:induction false} RemoveAbsent(es: Entries, k: string)
    requires Lookup(es, k).None?
    ensures Remove(es, k) == es
  {
    if |es| > 0 {
      RemoveAbsent(es[1..], k);
      assert es == [es[0]] + es[1..];
    }
  }

  /** On a mapping without duplicate keys, looking up the key of entry `i`
      gives its value. */
  lemma {:induction false} LookupUnique(es: Entries, i: nat)
    requires UniqueKeys(es) && i < |es|
    ensures Lookup(es, es[i].0) == Some(es[i].1)
  {
    if i > 0 {
      assert es[1..][i - 1] == es[i];
      assert UniqueKeys(es[1..]) by {
        forall a, b | 0 <= a < b < |es[1..]| ensures es[1..][a].0 != es[1..][b].0 {
          assert es[1..][a] == es[a + 1] && es[1..][b] == es[b + 1];
        }
      }
      LookupUnique(es[1..], i - 1);
    }
  }

  /** A second assignment to the same key overrides the first. */
  lemma {:induction false} SetSet(es: Entries, k: string, v1: Node, v2: Node)
    ensures Set(Set(es, k, v1), k, v2) == Set(es, k, v2)
  {
    if |es| > 0 && es[0].0 != k {
      SetSet(es[1..], k, v1, v2);
      assert Set(es, k, v1)[1..] == Set(es[1..], k, v1);
    }
  }

  /** Assigning a key already present replaces that entry in place. */
  lemma {:induction false} SetExisting(es: Entries, i: nat, v: Node)
    requires UniqueKeys(es) && i < |es|
    ensures Set(es, es[i].0, v) == es[i := (es[i].0, v)]
  {
    if i > 0 {
      var t := es[1..];
      assert t[i - 1] == es[i];
      assert UniqueKeys(t) by {
        forall a, b | 0 <= a < b < |t| ensures t[a].0 != t[b].0 {
          assert t[a] == es[a + 1] && t[b] == es[b + 1];
        }
      }
      SetExisting(t, i - 1, v);
      assert es[i := (es[i].0, v)] == [es[0]] + t[i - 1 := (es[i].0, v)];
    }
  }
}

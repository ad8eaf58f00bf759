/** Ordered maps from text to text, as the sequence of their entries in key order. */
module BTree {

  /** The order on keys: the first differing character decides, and a prefix comes first. */
  predicate Less(a: string, b: string) {
    b != "" && (a == "" || a[0] < b[0] || (a[0] == b[0] && Less(a[1..], b[1..])))
  }

  lemma {:induction false} Asymmetric(a: string, b: string)
    requires Less(a, b)
    ensures !Less(b, a) && a != b
  {
    if a != "" && a[0] == b[0] {
      Asymmetric(a[1..], b[1..]);
    }
  }

  lemma {:induction false} Total(a: string, b: string)
    ensures Less(a, b) || Less(b, a) || a == b
  {
    if a != "" && b != "" && a[0] == b[0] {
      Total(a[1..], b[1..]);
      assert a == [a[0]] + a[1..] && b == [b[0]] + b[1..];
    }
  }

  type Entries = seq<(string, string)>

  predicate Ascending(m: Entries) { forall i, j :: 0 <= i < j < |m| ==> Less(m[i].0, m[j].0) }

  type BTreeMap = m: Entries | Ascending(m) witness []

  /** The finite map that entries denote when they are inserted in order. */
  function Map(m: Entries): map<string, string> {
    if m == [] then map[] else Map(m[..|m| - 1])[m[|m| - 1].0 := m[|m| - 1].1]
  }

  /** An ordered map holds exactly its entries. */
  lemma {:induction false} MapEntries(m: BTreeMap, k: string, v: string)
    ensures k in Map(m) && Map(m)[k] == v <==> (k, v) in m
  {
    if m != [] {
      var n := |m| - 1;
      MapEntries(m[..n], k, v);
      assert m == m[..n] + [m[n]];
      if m[n].0 == k && (k, v) in m[..n] {
        var i :| 0 <= i < n && m[i] == (k, v);
        Asymmetric(m[i].0, m[n].0);
      }
    }
  }
}

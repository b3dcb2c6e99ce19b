/**
 * Turning the static tables into numeric ones: `parseConstants`,
 * `parseMasses_p`, `parseMasses` and `mergeDict` of app.js.
 *
 * A JavaScript object whose enumeration order matters is modelled as its
 * entries in that order; one that is only looked up is a `map`.
 */
module Tables {
  import opened Numbers

  /** An object's own enumerable entries, in enumeration order. */
  type Entries<V> = seq<(string, V)>

  /** The keys that occur in `es`. */
  function KeysOf<V>(es: Entries<V>): set<string>
  {
    set i | 0 <= i < |es| :: es[i].0
  }

  /** Whether no key occurs twice, as in the entries of one object. */
  predicate DistinctKeys<V>(es: Entries<V>)
  {
    forall i, j :: 0 <= i < j < |es| ==> es[i].0 != es[j].0
  }

  /** The object obtained by assigning the entries one after another. */
  function Assigned<V>(es: Entries<V>): map<string, V>
  {
    if es == [] then map[]
    else Assigned(es[..|es| - 1])[es[|es| - 1].0 := es[|es| - 1].1]
  }

  /** Assigning entries defines exactly the keys that occur in them. */
  lemma {:induction false} AssignedKeys<V>(es: Entries<V>)
    ensures Assigned(es).Keys == KeysOf(es)
  {
    if es != [] {
      var n := |es| - 1;
      AssignedKeys(es[..n]);
      assert KeysOf(es) == KeysOf(es[..n]) + {es[n].0} by {
        forall k | k in KeysOf(es) ensures k in KeysOf(es[..n]) + {es[n].0} {
          var i :| 0 <= i < |es| && es[i].0 == k;
          if i < n { assert es[..n][i].0 == k; }
        }
        forall k | k in KeysOf(es[..n]) ensures k in KeysOf(es) {
          var i :| 0 <= i < n && es[..n][i].0 == k;
          assert es[i].0 == k;
        }
      }
    }
  }

  /** The last entry for a key decides its value; earlier ones are overwritten. */
  lemma {:induction false} AssignedLastWins<V>(es: Entries<V>, j: nat)
    requires j < |es|
    requires forall i :: j < i < |es| ==> es[i].0 != es[j].0
    ensures es[j].0 in Assigned(es) && Assigned(es)[es[j].0] == es[j].1
  {
    var n := |es| - 1;
    if j < n {
      AssignedLastWins(es[..n], j);
    }
  }

  // ---------------------------------------------------------------------------
  // parseConstants, parseMasses_p, parseMasses

  /**
   * `parseConstants`: every value is passed through `parse` (JavaScript's
   * `parseFloat`), keys are kept. An unparseable value becomes NaN and is
   * not reported.
   */
  function ParseConstants(raw: map<string, string>, parse: string -> Num): (parsed: map<string, Num>)
    ensures parsed.Keys == raw.Keys
    ensures forall k :: k in raw ==> parsed[k] == parse(raw[k])
  {
    map k | k in raw :: parse(raw[k])
  }

  /**
   * Parsing commutes with the object spread `{...a, ...b}` used to join the
   * raw and the derived constants: a derived constant shadows a raw one.
   */
  lemma ParseConstantsOfSpread(a: map<string, string>, b: map<string, string>, parse: string -> Num)
    ensures ParseConstants(a + b, parse) == ParseConstants(a, parse) + ParseConstants(b, parse)
  {
  }

  /** The entries with every value parsed, in the same order. */
  function ParsedEntries(es: Entries<string>, parse: string -> Num): (ps: Entries<Num>)
    ensures |ps| == |es|
    ensures forall i :: 0 <= i < |es| ==> ps[i] == (es[i].0, parse(es[i].1))
  {
    seq(|es|, i requires 0 <= i < |es| => (es[i].0, parse(es[i].1)))
  }

  /** The keys whose value is NaN, in order: the keys `parseMasses_p` warns about. */
  function NaNKeys(ps: Entries<Num>): (ks: seq<string>)
    ensures forall k :: k in ks <==> exists i :: 0 <= i < |ps| && ps[i].0 == k && ps[i].1.NaN?
  {
    if ps == [] then []
    else
      var n := |ps| - 1;
      var ks' := NaNKeys(ps[..n]);
      assert forall i :: 0 <= i < n ==> ps[..n][i] == ps[i];
      if ps[n].1.NaN? then ks' + [ps[n].0] else ks'
  }

  /**
   * `parseMasses_p`: parses one category's values in order, and returns the
   * keys of the values that did not parse (the warnings it logs).
   */
  method ParseMassCategory(raw: Entries<string>, parse: string -> Num) returns (parsed: Entries<Num>, warned: seq<string>)
    ensures parsed == ParsedEntries(raw, parse)
    ensures warned == NaNKeys(parsed)
  {
    parsed, warned := [], [];
    var i := 0;
    while i < |raw|
      invariant 0 <= i <= |raw|
      invariant parsed == ParsedEntries(raw[..i], parse)
      invariant warned == NaNKeys(parsed)
    {
      var v := parse(raw[i].1);
      ghost var before := parsed;
      parsed := parsed + [(raw[i].0, v)];
      assert parsed[..|parsed| - 1] == before;
      if v.NaN? {
        warned := warned + [raw[i].0];
      }
      i := i + 1;
    }
    assert raw[..i] == raw;
  }

  /** The categories with every category parsed, in the same order. */
  function ParsedCategories(cats: Entries<Entries<string>>, parse: string -> Num): (ps: Entries<Entries<Num>>)
    ensures |ps| == |cats|
    ensures forall i :: 0 <= i < |cats| ==> ps[i] == (cats[i].0, ParsedEntries(cats[i].1, parse))
  {
    seq(|cats|, i requires 0 <= i < |cats| => (cats[i].0, ParsedEntries(cats[i].1, parse)))
  }

  /** `parseMasses`: `parseMasses_p` applied to every category, in order. */
  method ParseMasses(raw: Entries<Entries<string>>, parse: string -> Num) returns (parsed: Entries<Entries<Num>>, warned: seq<string>)
    ensures parsed == ParsedCategories(raw, parse)
    ensures forall k :: k in warned <==> exists i :: 0 <= i < |parsed| && k in NaNKeys(parsed[i].1)
  {
    parsed, warned := [], [];
    var i := 0;
    while i < |raw|
      invariant 0 <= i <= |raw|
      invariant parsed == ParsedCategories(raw[..i], parse)
      invariant forall k :: k in warned <==> exists c :: 0 <= c < i && k in NaNKeys(parsed[c].1)
    {
      var category, w := ParseMassCategory(raw[i].1, parse);
      parsed := parsed + [(raw[i].0, category)];
      warned := warned + w;
      i := i + 1;
    }
    assert raw[..i] == raw;
  }

  // ---------------------------------------------------------------------------
  // mergeDict

  /**
   * The flat table `mergeDict` builds: the categories' entries assigned in
   * category order, so a later category overwrites an earlier one.
   */
  function Merged<V>(cats: Entries<Entries<V>>): map<string, V>
  {
    if cats == [] then map[]
    else Merged(cats[..|cats| - 1]) + Assigned(cats[|cats| - 1].1)
  }

  /** `mergeDict`: the nested loops that copy every inner entry into one fresh object. */
  method MergeDict<V>(cats: Entries<Entries<V>>) returns (flat: map<string, V>)
    ensures flat == Merged(cats)
  {
    flat := map[];
    var i := 0;
    while i < |cats|
      invariant 0 <= i <= |cats|
      invariant flat == Merged(cats[..i])
    {
      var entries := cats[i].1;
      var j := 0;
      while j < |entries|
        invariant 0 <= j <= |entries|
        invariant flat == Merged(cats[..i]) + Assigned(entries[..j])
      {
        assert entries[..j + 1][..j] == entries[..j];
        flat := flat[entries[j].0 := entries[j].1];
        j := j + 1;
      }
      assert entries[..j] == entries;
      assert cats[..i + 1][..i] == cats[..i];
      i := i + 1;
    }
    assert cats[..i] == cats;
  }

  /** The flat table's keys are exactly the union of every category's keys. */
  lemma {:induction false} MergedKeys<V>(cats: Entries<Entries<V>>)
    ensures forall k :: k in Merged(cats) <==> exists i :: 0 <= i < |cats| && k in KeysOf(cats[i].1)
  {
    if cats != [] {
      var n := |cats| - 1;
      MergedKeys(cats[..n]);
      AssignedKeys(cats[n].1);
      forall k ensures k in Merged(cats) <==> exists i :: 0 <= i < |cats| && k in KeysOf(cats[i].1) {
        if k in Merged(cats[..n]) {
          var i :| 0 <= i < n && k in KeysOf(cats[..n][i].1);
          assert k in KeysOf(cats[i].1);
        }
        if exists i :: 0 <= i < |cats| && k in KeysOf(cats[i].1) {
          var i :| 0 <= i < |cats| && k in KeysOf(cats[i].1);
          if i < n { assert k in KeysOf(cats[..n][i].1); }
        }
      }
    }
  }

  /**
   * On a collision the later category wins: a key takes its value from the
   * last category that defines it, whatever earlier categories said.
   */
  lemma {:induction false} MergedLaterCategoryWins<V>(cats: Entries<Entries<V>>, i: nat, k: string)
    requires i < |cats| && k in KeysOf(cats[i].1)
    requires forall c :: i < c < |cats| ==> k !in KeysOf(cats[c].1)
    ensures k in Merged(cats) && k in Assigned(cats[i].1)
    ensures Merged(cats)[k] == Assigned(cats[i].1)[k]
  {
    var n := |cats| - 1;
    AssignedKeys(cats[n].1);
    AssignedKeys(cats[i].1);
    if i < n {
      MergedLaterCategoryWins(cats[..n], i, k);
    }
  }

  /**
   * Every symbol maps to the value of its last definition: the last entry
   * for it in the last category that defines it.
   */
  lemma MergedLastDefinitionWins<V>(cats: Entries<Entries<V>>, i: nat, j: nat)
    requires i < |cats| && j < |cats[i].1|
    requires forall e :: j < e < |cats[i].1| ==> cats[i].1[e].0 != cats[i].1[j].0
    requires forall c :: i < c < |cats| ==> cats[i].1[j].0 !in KeysOf(cats[c].1)
    ensures cats[i].1[j].0 in Merged(cats)
    ensures Merged(cats)[cats[i].1[j].0] == cats[i].1[j].1
  {
    AssignedLastWins(cats[i].1, j);
    MergedLaterCategoryWins(cats, i, cats[i].1[j].0);
  }

  /** Parsing keeps the flat mass table's keys: they are the raw categories' keys. */
  lemma FlatMassKeys(raw: Entries<Entries<string>>, parse: string -> Num)
    ensures forall k :: k in Merged(ParsedCategories(raw, parse)) <==> exists i :: 0 <= i < |raw| && k in KeysOf(raw[i].1)
  {
    var ps := ParsedCategories(raw, parse);
    MergedKeys(ps);
    forall i | 0 <= i < |raw| ensures KeysOf(ps[i].1) == KeysOf(raw[i].1) {
      var es := raw[i].1;
      assert forall j :: 0 <= j < |es| ==> ps[i].1[j].0 == es[j].0;
    }
  }
}

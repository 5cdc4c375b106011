/** The frequency counts of `getStats`. */
module Tallies {
  import opened Catalog
  import opened FileTypes

  /** The three entry fields `getStats` counts by. */
  datatype Field = ByType | ByUser | ByMonth

  /** The key an entry is counted under: the type's string, the profile
      folder, the month. */
  function Key(e: Entry, f: Field): string
  {
    match f
    case ByType => e.fileType.Name()
    case ByUser => e.user
    case ByMonth => e.yearMonth
  }

  /** `counts[k] = (counts[k] || 0) + 1` on a key the object does not
      inherit. */
  function Bump(m: map<string, nat>, k: string): map<string, nat>
  {
    m[k := (if k in m then m[k] else 0) + 1]
  }

  /** The counts after the `forEach` has visited every entry of `s`. */
  function Tally(s: seq<Entry>, f: Field): map<string, nat>
  {
    if s == [] then map[] else Bump(Tally(s[..|s| - 1], f), Key(s[|s| - 1], f))
  }

  /** How many entries of `s` have key `k`. */
  function CountKey(s: seq<Entry>, f: Field, k: string): nat
  {
    if s == [] then 0 else CountKey(s[..|s| - 1], f, k) + (if Key(s[|s| - 1], f) == k then 1 else 0)
  }

  /** The keys of `s` in order of first occurrence, each once. */
  function DistinctKeys(s: seq<Entry>, f: Field): seq<string>
  {
    if s == [] then []
    else
      var d := DistinctKeys(s[..|s| - 1], f);
      if Key(s[|s| - 1], f) in d then d else d + [Key(s[|s| - 1], f)]
  }

  predicate NoDuplicates(ks: seq<string>)
  {
    forall i, j :: 0 <= i < j < |ks| ==> ks[i] != ks[j]
  }

  /** The sum of the counts of `ks`. */
  function MapSum(m: map<string, nat>, ks: seq<string>): nat
    requires forall k :: k in ks ==> k in m
  {
    if ks == [] then 0 else MapSum(m, ks[..|ks| - 1]) + m[ks[|ks| - 1]]
  }

  /** One more entry bumps its own key. */
  lemma TallyStep(s: seq<Entry>, i: nat, f: Field)
    requires i < |s|
    ensures Tally(s[..i + 1], f) == Bump(Tally(s[..i], f), Key(s[i], f))
  {
    assert s[..i + 1][..i] == s[..i];
  }

  /** Every key that occurs has an entry holding its number of occurrences,
      and no other key has one. */
  lemma {:induction false} TallyCounts(s: seq<Entry>, f: Field, k: string)
    ensures k in Tally(s, f) <==> CountKey(s, f, k) > 0
    ensures k in Tally(s, f) ==> Tally(s, f)[k] == CountKey(s, f, k)
  {
    if s != [] {
      TallyCounts(s[..|s| - 1], f, k);
    }
  }

  lemma {:induction false} DistinctKeysSpec(s: seq<Entry>, f: Field)
    ensures NoDuplicates(DistinctKeys(s, f))
    ensures forall k :: k in DistinctKeys(s, f) <==> k in Tally(s, f)
  {
    if s != [] {
      DistinctKeysSpec(s[..|s| - 1], f);
    }
  }

  lemma {:induction false} MapSumAgree(m: map<string, nat>, m': map<string, nat>, ks: seq<string>)
    requires forall k :: k in ks ==> k in m && k in m' && m[k] == m'[k]
    ensures MapSum(m, ks) == MapSum(m', ks)
  {
    if ks != [] {
      MapSumAgree(m, m', ks[..|ks| - 1]);
    }
  }

  lemma {:induction false} MapSumBump(m: map<string, nat>, ks: seq<string>, k: string)
    requires forall j :: j in ks ==> j in m
    requires k in ks && NoDuplicates(ks)
    ensures MapSum(Bump(m, k), ks) == MapSum(m, ks) + 1
  {
    var init, last := ks[..|ks| - 1], ks[|ks| - 1];
    assert NoDuplicates(init);
    if last == k {
      forall j | j in init ensures j != k {
        var i :| 0 <= i < |init| && init[i] == j;
        assert ks[i] == j;
      }
      MapSumAgree(m, Bump(m, k), init);
    } else {
      assert k in init;
      MapSumBump(m, init, k);
    }
  }

  /** The counts of one field add up to the number of entries: the
      invariant `getStats` promises between `total` and each breakdown. */
  lemma {:induction false} TallySum(s: seq<Entry>, f: Field)
    ensures forall k :: k in DistinctKeys(s, f) ==> k in Tally(s, f)
    ensures MapSum(Tally(s, f), DistinctKeys(s, f)) == |s|
  {
    DistinctKeysSpec(s, f);
    if s != [] {
      var init, k := s[..|s| - 1], Key(s[|s| - 1], f);
      var m, ks := Tally(init, f), DistinctKeys(init, f);
      TallySum(init, f);
      DistinctKeysSpec(init, f);
      if k in ks {
        MapSumBump(m, ks, k);
      } else {
        var m' := Bump(m, k);
        assert (ks + [k])[..|ks|] == ks;
        MapSumAgree(m, m', ks);
      }
    }
  }

  // ---------------------------------------------------------------- the counts as the code computes them

  /** What a property of a plain object literal holds after `getStats`: a
      number, or some string once `+ 1` has concatenated. */
  datatype JsValue = Number(n: nat) | Text

  /** Methods every object literal inherits from `Object.prototype`; reading
      one gives a (truthy) function. */
  const InheritedMembers: set<string> := {
    "constructor", "hasOwnProperty", "isPrototypeOf", "propertyIsEnumerable",
    "toLocaleString", "toString", "valueOf",
    "__defineGetter__", "__defineSetter__", "__lookupGetter__", "__lookupSetter__"}

  /** `counts[k] = (counts[k] || 0) + 1` on an object literal, own
      properties only in the map. Reading an inherited method and adding 1
      concatenates strings; `__proto__` reads the prototype object, and
      assigning a string to it is ignored. */
  function JsBump(m: map<string, JsValue>, k: string): map<string, JsValue>
  {
    if k == "__proto__" then m
    else if k in m then m[k := if m[k].Number? then Number(m[k].n + 1) else Text]
    else if k in InheritedMembers then m[k := Text]
    else m[k := Number(1)]
  }

  function TallyAsWritten(s: seq<Entry>, f: Field): map<string, JsValue>
  {
    if s == [] then map[] else JsBump(TallyAsWritten(s[..|s| - 1], f), Key(s[|s| - 1], f))
  }

  /** Away from those names the code counts as `Tally` does. */
  lemma {:induction false} AsWrittenAgrees(s: seq<Entry>, f: Field, k: string)
    requires forall i :: 0 <= i < |s| ==> Key(s[i], f) !in InheritedMembers && Key(s[i], f) != "__proto__"
    ensures k in TallyAsWritten(s, f) <==> k in Tally(s, f)
    ensures k in Tally(s, f) ==> TallyAsWritten(s, f)[k] == Number(Tally(s, f)[k])
  {
    if s != [] {
      AsWrittenAgrees(s[..|s| - 1], f, k);
    }
  }

  /** A profile folder named `constructor` gets a string instead of a count. */
  lemma ConstructorMiscounted(e: Entry)
    requires e.user == "constructor"
    ensures TallyAsWritten([e], ByUser)["constructor"] == Text
    ensures Tally([e], ByUser)["constructor"] == 1
  {
    assert [e][..0] == [];
  }

  /** A profile folder named `__proto__` is not counted at all, so the
      counts no longer add up to `total`. */
  lemma ProtoDropped(e: Entry)
    requires e.user == "__proto__"
    ensures "__proto__" !in TallyAsWritten([e], ByUser)
    ensures Tally([e], ByUser)["__proto__"] == 1
  {
    assert [e][..0] == [];
  }
}

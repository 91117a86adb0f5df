/**
 * Instrument components named by PSI-MS controlled-vocabulary terms: the four-field
 * `Component` record with its string-aware equality, name-only hash and `is_a` test,
 * the index of the static component lists by name, and `component(name)`, which falls
 * back to a synthesised entry for an unknown name.
 */
module InstrumentComponents {

  /**
   * The `specialization` field: the generated entries hold the list of ancestor terms,
   * and a few hand-written entries hold one bare string instead.
   */
  datatype Specialization = Terms(terms: seq<string>) | Text(text: string)

  /** `Component(name, id, category, specialization)`. */
  datatype Component = Component(name: string, id: string, category: string, specialization: Specialization)

  /** The right operand of `==`: a string, or another four-field record. */
  datatype Operand = Str(s: string) | Record(c: Component)

  /** t occurs in s starting at position i. */
  predicate OccursAt(t: string, s: string, i: nat)
  {
    i + |t| <= |s| && s[i..i + |t|] == t
  }

  /** Python's `t in s` on two strings: t is a substring of s. */
  predicate IsSubstring(t: string, s: string)
  {
    exists i: nat :: i <= |s| && OccursAt(t, s, i)
  }

  /** `term in specialization`: membership in a list, a substring test on a string. */
  predicate Mentions(sp: Specialization, term: string)
  {
    match sp
    case Terms(ts) => term in ts
    case Text(x) => IsSubstring(term, x)
  }

  /**
   * `Component.__eq__`: a string equals a component when it is its name or its
   * accession; any other operand is compared field by field as a tuple.
   */
  function Equal(c: Component, other: Operand): bool
  {
    match other
    case Str(s) => s == c.name || s == c.id
    case Record(d) => c == d
  }

  /** `Component.__ne__`: the negation of `__eq__`. */
  function NotEqual(c: Component, other: Operand): bool
  {
    !Equal(c, other)
  }

  /** `Component.__hash__`: the string hash of the name alone; the hash itself is a parameter. */
  function Hash(c: Component, hash: string -> int): int
  {
    hash(c.name)
  }

  /** `Component.is_a(term)`: term is the component's own name or one of its specialisations. */
  function IsA(c: Component, term: string): bool
  {
    term == c.name || Mentions(c.specialization, term)
  }

  /**
   * Equality against a record compares the four fields, and is an equivalence, as tuple
   * equality is; the negated comparison is its exact opposite.
   */
  lemma RecordEqualityIsEquivalence(a: Component, b: Component, c: Component)
    ensures Equal(a, Record(b)) <==>
      a.name == b.name && a.id == b.id && a.category == b.category && a.specialization == b.specialization
    ensures NotEqual(a, Record(b)) <==> !Equal(a, Record(b))
    ensures Equal(a, Record(a))
    ensures Equal(a, Record(b)) <==> Equal(b, Record(a))
    ensures Equal(a, Record(b)) && Equal(b, Record(c)) ==> Equal(a, Record(c))
  {
  }

  /** A component equals its own name and its own accession, and no other string. */
  lemma EqualToOwnStrings(c: Component, s: string)
    ensures Equal(c, Str(s)) <==> s == c.name || s == c.id
    ensures NotEqual(c, Str(s)) <==> s != c.name && s != c.id
  {
  }

  /** Components that compare equal as records hash the same, whatever the string hash. */
  lemma HashRespectsRecordEquality(c: Component, d: Component, hash: string -> int)
    requires Equal(c, Record(d))
    ensures Hash(c, hash) == Hash(d, hash)
  {
  }

  /** The hash reads only the name: components sharing a name hash alike even when unequal. */
  lemma HashReadsOnlyName(c: Component, d: Component, hash: string -> int)
    requires c.name == d.name
    ensures Hash(c, hash) == Hash(d, hash) && Hash(c, hash) == hash(c.name)
  {
  }

  /**
   * A component equals its accession string, but its hash is that of its name, so the
   * rule that equal objects hash alike fails for the accession: with the length as the
   * string hash, the orbitrap entry and "MS:1000484" are equal with different hashes.
   */
  lemma AccessionEqualityBreaksHash()
    ensures var c := Orbitrap();
      Equal(c, Str(c.id)) && Hash(c, s => |s|) != (s => |s|)(c.id)
  {
  }

  /**
   * Every component is a kind of itself; beyond its name, a term qualifies exactly when
   * the specialisation mentions it, by list membership for the generated entries.
   */
  lemma IsAOwnName(c: Component, term: string)
    ensures IsA(c, c.name)
    ensures term != c.name ==> (IsA(c, term) <==> Mentions(c.specialization, term))
    ensures c.specialization.Terms? ==> (IsA(c, term) <==> term == c.name || term in c.specialization.terms)
  {
  }

  /**
   * With a bare-string specialisation `is_a` is a substring test: the Acquity fluorescence
   * detector is a "detector" (a piece of "fluorescence detector") yet not a
   * "detector type", although its category is "detector type".
   */
  lemma TextSpecializationIsSubstring()
    ensures var c := AcquityFlr();
      c.category == "detector type" && IsA(c, "detector") && !IsA(c, "detector type")
  {
    var x := AcquityFlr().specialization.text;
    assert OccursAt("detector", x, 13);
    assert forall k :: 0 <= k < |x| ==> x[k] != 'y';
    forall i: nat ensures !OccursAt("detector type", x, i) {
      if i + 13 <= |x| {
        assert x[i..i + 13][10] == x[i + 10];
      }
    }
  }

  /** The Acquity photodiode array is an "array detector", a piece of "photodiode array detector". */
  lemma TextSpecializationPda()
    ensures IsA(AcquityPda(), "array detector")
  {
    assert OccursAt("array detector", AcquityPda().specialization.text, 11);
  }

  // ---------------------------------------------------------------------------
  // all_components_by_name and component
  // ---------------------------------------------------------------------------

  /** The names of the components of cs. */
  function Names(cs: seq<Component>): set<string>
  {
    set c | c in cs :: c.name
  }

  /**
   * `{c.name: c for c in cs}`: the comprehension inserts in list order, so a later
   * component with a repeated name replaces the earlier one.
   */
  function ByName(cs: seq<Component>): map<string, Component>
  {
    if cs == [] then map[] else ByName(cs[..|cs| - 1])[cs[|cs| - 1].name := cs[|cs| - 1]]
  }

  /** The index has exactly the names of the list as keys. */
  lemma {:induction false} ByNameKeys(cs: seq<Component>)
    ensures ByName(cs).Keys == Names(cs)
  {
    if cs != [] {
      var init := cs[..|cs| - 1];
      ByNameKeys(init);
      assert cs == init + [cs[|cs| - 1]];
      assert Names(cs) == Names(init) + {cs[|cs| - 1].name};
    }
  }

  /** Every entry is a component of the list filed under its own name. */
  lemma {:induction false} ByNameValues(cs: seq<Component>)
    ensures forall n :: n in ByName(cs) ==> ByName(cs)[n].name == n && ByName(cs)[n] in cs
  {
    if cs != [] {
      var init := cs[..|cs| - 1];
      ByNameValues(init);
      forall n | n in ByName(init) ensures ByName(init)[n] in cs {
        var j :| 0 <= j < |init| && init[j] == ByName(init)[n];
        assert cs[j] == init[j];
      }
    }
  }

  /** A component whose name does not recur later in the list is the entry for that name. */
  lemma {:induction false} ByNameLastWins(cs: seq<Component>, i: nat)
    requires i < |cs|
    requires forall j :: i < j < |cs| ==> cs[j].name != cs[i].name
    ensures cs[i].name in ByName(cs) && ByName(cs)[cs[i].name] == cs[i]
  {
    if i < |cs| - 1 {
      var init := cs[..|cs| - 1];
      assert init[i] == cs[i];
      ByNameLastWins(init, i);
    }
  }

  /** Without repeated names in the list every component is found under its name. */
  lemma ByNameDistinct(cs: seq<Component>)
    requires forall i, j :: 0 <= i < j < |cs| ==> cs[i].name != cs[j].name
    ensures forall i :: 0 <= i < |cs| ==> cs[i].name in ByName(cs) && ByName(cs)[cs[i].name] == cs[i]
  {
    forall i | 0 <= i < |cs| ensures cs[i].name in ByName(cs) && ByName(cs)[cs[i].name] == cs[i] {
      ByNameLastWins(cs, i);
    }
  }

  /** The entry synthesised for a name that is not in the table. */
  function Fallback(name: string): Component
  {
    Component(name, name, name, Terms([name]))
  }

  /** `component(name)` over a name index: the entry when the name is a key, else the fallback. */
  function Lookup(byName: map<string, Component>, name: string): Component
  {
    if name in byName then byName[name] else Fallback(name)
  }

  /** Whatever `component(name)` returns, table entry or fallback, is named name, is a name and equals it. */
  lemma LookupMatchesName(cs: seq<Component>, name: string)
    ensures var c := Lookup(ByName(cs), name);
      c.name == name && IsA(c, name) && Equal(c, Str(name))
  {
    ByNameValues(cs);
  }

  /** A name not in the lists gets the fallback: the name stands for accession, category and path. */
  lemma LookupUnknown(cs: seq<Component>, name: string)
    requires name !in Names(cs)
    ensures Lookup(ByName(cs), name) == Fallback(name)
  {
    ByNameKeys(cs);
  }

  /** A listed name whose component does not recur later is looked up to that component. */
  lemma LookupListed(cs: seq<Component>, i: nat)
    requires i < |cs|
    requires forall j :: i < j < |cs| ==> cs[j].name != cs[i].name
    ensures Lookup(ByName(cs), cs[i].name) == cs[i]
  {
    ByNameLastWins(cs, i);
  }

  // ---------------------------------------------------------------------------
  // Sample entries of the static lists
  // ---------------------------------------------------------------------------

  /** The electrospray ionization entry of the ionization types. */
  function ElectrosprayIonization(): Component
  {
    Component("electrospray ionization", "MS:1000073", "ionization type", Terms(["ionization type"]))
  }

  /** The electron multiplier tube entry of the detector types. */
  function ElectronMultiplierTube(): Component
  {
    Component("electron multiplier tube", "MS:1000111", "detector type",
      Terms(["electron multiplier", "detector type"]))
  }

  /** The Acquity fluorescence detector, a hand-written entry with a bare-string specialisation. */
  function AcquityFlr(): Component
  {
    Component("Acquity UPLC FLR", "MS:1000819", "detector type", Text("fluorescence detector"))
  }

  /** The Acquity photodiode array detector, another bare-string entry. */
  function AcquityPda(): Component
  {
    Component("Acquity UPLC PDA", "MS:1000818", "detector type", Text("photodiode array detector"))
  }

  /** The orbitrap entry of the analyzer types. */
  function Orbitrap(): Component
  {
    Component("orbitrap", "MS:1000484", "mass analyzer type", Terms(["mass analyzer type"]))
  }

  /** The nanospray inlet entry of the inlet types, a kind of electrospray inlet. */
  function NanosprayInlet(): Component
  {
    Component("nanospray inlet", "MS:1000485", "inlet type", Terms(["electrospray inlet", "inlet type"]))
  }

  /** `all_components`, the four lists joined in order, on the sample entries. */
  function SampleComponents(): seq<Component>
  {
    [ElectrosprayIonization()] + [ElectronMultiplierTube(), AcquityFlr(), AcquityPda()] + [Orbitrap()] + [NanosprayInlet()]
  }

  /** `component` on the sample table: a listed name finds its entry, another name the fallback. */
  lemma SampleLookups()
    ensures Lookup(ByName(SampleComponents()), "orbitrap").id == "MS:1000484"
    ensures IsA(Lookup(ByName(SampleComponents()), "nanospray inlet"), "electrospray inlet")
    ensures Lookup(ByName(SampleComponents()), "Orbitrap") == Fallback("Orbitrap")
  {
    var cs := SampleComponents();
    LookupListed(cs, 4);
    LookupListed(cs, 5);
    assert "Orbitrap"[0] != "orbitrap"[0];
    LookupUnknown(cs, "Orbitrap");
  }
}

/** What the scan stage computes from the listed PDBs: the per-namespace
    grouping of non-excluded PDBs, the namespaces with more than one PDB, the
    blocking PDBs per namespace and the baseline metric samples. */
module ScanSpec {
  import opened PdbTypes

  /** The PDBs recorded for a namespace; a missing key reads as the empty list
      (a Go map lookup of an absent key gives a nil slice). */
  function Lookup(m: map<string, seq<Pdb>>, ns: string): seq<Pdb>
  {
    if ns in m then m[ns] else []
  }

  /** A PDB allows no disruption while expecting pods. */
  predicate IsBlocking(p: Pdb)
  {
    p.disruptionsAllowed == 0 && p.expectedPods != 0
  }

  /** The PDBs of one namespace, in listing order. */
  function InNamespace(pdbs: seq<Pdb>, ns: string): seq<Pdb>
  {
    if pdbs == [] then []
    else
      InNamespace(pdbs[..|pdbs| - 1], ns)
      + (if pdbs[|pdbs| - 1].namespace == ns then [pdbs[|pdbs| - 1]] else [])
  }

  /** The blocking PDBs of one namespace, in listing order. */
  function BlockingIn(pdbs: seq<Pdb>, ns: string): seq<Pdb>
  {
    if pdbs == [] then []
    else
      BlockingIn(pdbs[..|pdbs| - 1], ns)
      + (if pdbs[|pdbs| - 1].namespace == ns && IsBlocking(pdbs[|pdbs| - 1]) then [pdbs[|pdbs| - 1]] else [])
  }

  /** The first pass of the scan: every non-excluded PDB appended to its namespace's list. */
  function Grouped(pdbs: seq<Pdb>, excluded: seq<string>): map<string, seq<Pdb>>
  {
    if pdbs == [] then map[]
    else
      var g := Grouped(pdbs[..|pdbs| - 1], excluded);
      var p := pdbs[|pdbs| - 1];
      if p.namespace in excluded then g else g[p.namespace := Lookup(g, p.namespace) + [p]]
  }

  /** The second pass after it has visited the namespaces in done: each
      namespace of g with more than one PDB has its PDBs appended to m0's list. */
  function AddMultiple(m0: map<string, seq<Pdb>>, g: map<string, seq<Pdb>>, done: set<string>)
    : map<string, seq<Pdb>>
  {
    map ns | ns in m0.Keys + (set k | k in done && k in g && |g[k]| > 1) ::
      if ns in done && ns in g && |g[ns]| > 1 then Lookup(m0, ns) + g[ns] else m0[ns]
  }

  /** The third pass: every non-excluded blocking PDB appended to its namespace's list. */
  function AddBlocking(m0: map<string, seq<Pdb>>, pdbs: seq<Pdb>, excluded: seq<string>)
    : map<string, seq<Pdb>>
  {
    if pdbs == [] then m0
    else
      var m := AddBlocking(m0, pdbs[..|pdbs| - 1], excluded);
      var p := pdbs[|pdbs| - 1];
      if p.namespace !in excluded && IsBlocking(p) then m[p.namespace := Lookup(m, p.namespace) + [p]] else m
  }

  /** The metric samples of the third pass: one "deleted" sample at value 0
      per non-excluded blocking PDB. */
  function BaselineSamples(pdbs: seq<Pdb>, excluded: seq<string>): seq<Effect>
  {
    if pdbs == [] then []
    else
      var p := pdbs[|pdbs| - 1];
      BaselineSamples(pdbs[..|pdbs| - 1], excluded)
      + (if p.namespace !in excluded && IsBlocking(p) then [Metric(p, PodDisruptionBudgetDeleted, 0)] else [])
  }

  /** The non-excluded blocking PDBs, in listing order, one per listed entry. */
  function BlockingListed(pdbs: seq<Pdb>, excluded: seq<string>): seq<Pdb>
  {
    if pdbs == [] then []
    else
      var p := pdbs[|pdbs| - 1];
      BlockingListed(pdbs[..|pdbs| - 1], excluded)
      + (if p.namespace !in excluded && IsBlocking(p) then [p] else [])
  }

  // ---------------------------------------------------------------------

  lemma {:induction false} InNamespaceMembers(pdbs: seq<Pdb>, ns: string)
    ensures forall p :: p in InNamespace(pdbs, ns) <==> p in pdbs && p.namespace == ns
  {
    if pdbs != [] {
      InNamespaceMembers(pdbs[..|pdbs| - 1], ns);
      assert pdbs == pdbs[..|pdbs| - 1] + [pdbs[|pdbs| - 1]];
    }
  }

  /** The blocking PDBs of a namespace are exactly its listed PDBs that block. */
  lemma {:induction false} BlockingInMembers(pdbs: seq<Pdb>, ns: string)
    ensures forall p :: p in BlockingIn(pdbs, ns) <==> p in pdbs && p.namespace == ns && IsBlocking(p)
  {
    if pdbs != [] {
      BlockingInMembers(pdbs[..|pdbs| - 1], ns);
      assert pdbs == pdbs[..|pdbs| - 1] + [pdbs[|pdbs| - 1]];
    }
  }

  /** The first pass groups exactly the non-excluded namespaces that have a
      PDB, each with all of its PDBs in listing order. */
  lemma {:induction false} GroupedSpec(pdbs: seq<Pdb>, excluded: seq<string>, ns: string)
    ensures ns in Grouped(pdbs, excluded) <==> ns !in excluded && |InNamespace(pdbs, ns)| > 0
    ensures ns in Grouped(pdbs, excluded) ==> Grouped(pdbs, excluded)[ns] == InNamespace(pdbs, ns)
  {
    if pdbs != [] {
      GroupedSpec(pdbs[..|pdbs| - 1], excluded, ns);
    }
  }

  /** Visiting one more namespace of g extends the second pass's result by
      that namespace alone, whichever order the namespaces are visited in. */
  lemma AddMultipleStep(m0: map<string, seq<Pdb>>, g: map<string, seq<Pdb>>, done: set<string>, ns: string)
    requires ns in g && ns !in done
    ensures AddMultiple(m0, g, done + {ns}) ==
      var m := AddMultiple(m0, g, done);
      if |g[ns]| > 1 then m[ns := Lookup(m, ns) + g[ns]] else m
  {
    var m := AddMultiple(m0, g, done);
    var m' := AddMultiple(m0, g, done + {ns});
    if |g[ns]| > 1 {
      assert Lookup(m, ns) == Lookup(m0, ns);
      assert m'.Keys == m.Keys + {ns};
    } else {
      assert m'.Keys == m.Keys;
    }
  }

  /** After the scan, starting from an empty map, a namespace has a
      multiple-budget entry exactly when it is not excluded and has more than
      one PDB, and the entry holds all of its PDBs in listing order. */
  lemma ScanMultipleSpec(pdbs: seq<Pdb>, excluded: seq<string>, ns: string)
    ensures var g := Grouped(pdbs, excluded);
      var m := AddMultiple(map[], g, g.Keys);
      (ns in m <==> ns !in excluded && |InNamespace(pdbs, ns)| > 1)
      && (ns in m ==> m[ns] == InNamespace(pdbs, ns))
  {
    var g := Grouped(pdbs, excluded);
    GroupedSpec(pdbs, excluded, ns);
    AddMultipleAt(map[], g, g.Keys, ns);
  }

  /** One key of the second pass's result. */
  lemma AddMultipleAt(m0: map<string, seq<Pdb>>, g: map<string, seq<Pdb>>, done: set<string>, ns: string)
    ensures var m := AddMultiple(m0, g, done);
      (ns in m <==> ns in m0 || (ns in done && ns in g && |g[ns]| > 1))
      && (ns in m ==> m[ns] == if ns in done && ns in g && |g[ns]| > 1 then Lookup(m0, ns) + g[ns] else m0[ns])
  {
  }

  /** The third pass appends to each namespace's entry exactly its
      non-excluded blocking PDBs, in listing order. */
  lemma {:induction false} AddBlockingSpec(m0: map<string, seq<Pdb>>, pdbs: seq<Pdb>, excluded: seq<string>, ns: string)
    ensures var m := AddBlocking(m0, pdbs, excluded);
      (ns in m <==> ns in m0 || (ns !in excluded && |BlockingIn(pdbs, ns)| > 0))
      && Lookup(m, ns) == Lookup(m0, ns) + (if ns in excluded then [] else BlockingIn(pdbs, ns))
  {
    if pdbs != [] {
      var init := pdbs[..|pdbs| - 1];
      var p := pdbs[|pdbs| - 1];
      AddBlockingSpec(m0, init, excluded, ns);
      var m := AddBlocking(m0, init, excluded);
      var tail := if p.namespace == ns && IsBlocking(p) then [p] else [];
      assert BlockingIn(pdbs, ns) == BlockingIn(init, ns) + tail;
      if p.namespace !in excluded && IsBlocking(p) {
        assert AddBlocking(m0, pdbs, excluded) == m[p.namespace := Lookup(m, p.namespace) + [p]];
        if p.namespace == ns {
          assert ns !in excluded;
          assert Lookup(m0, ns) + BlockingIn(init, ns) + [p] == Lookup(m0, ns) + BlockingIn(pdbs, ns);
        }
      } else {
        assert AddBlocking(m0, pdbs, excluded) == m;
        assert ns !in excluded ==> tail == [];
      }
    }
  }

  /** Other keys of the map are left alone by the third pass. */
  lemma {:induction false} AddBlockingKeeps(m0: map<string, seq<Pdb>>, pdbs: seq<Pdb>, excluded: seq<string>)
    ensures m0.Keys <= AddBlocking(m0, pdbs, excluded).Keys
  {
    if pdbs != [] {
      AddBlockingKeeps(m0, pdbs[..|pdbs| - 1], excluded);
    }
  }

  /** After the scan, starting from an empty map, a PDB is listed under a
      namespace as blocking exactly when it was listed in that namespace, the
      namespace is not excluded, it allows no disruption and it expects pods. */
  lemma ScanBlockingMembership(pdbs: seq<Pdb>, excluded: seq<string>, ns: string, p: Pdb)
    ensures var b := AddBlocking(map[], pdbs, excluded);
      (ns in b && p in b[ns]) <==> p in pdbs && p.namespace == ns && ns !in excluded && IsBlocking(p)
  {
    AddBlockingSpec(map[], pdbs, excluded, ns);
    BlockingInMembers(pdbs, ns);
  }

  /** The baseline samples are exactly one "deleted" sample at value 0 per
      listed, non-excluded, blocking PDB, and nothing else. */
  lemma {:induction false} BaselineSamplesSpec(pdbs: seq<Pdb>, excluded: seq<string>)
    ensures forall e :: e in BaselineSamples(pdbs, excluded) ==>
      e.Metric? && e.reason == PodDisruptionBudgetDeleted && e.value == 0
      && e.pdb in pdbs && e.pdb.namespace !in excluded && IsBlocking(e.pdb)
    ensures forall p :: p in pdbs && p.namespace !in excluded && IsBlocking(p) ==>
      Metric(p, PodDisruptionBudgetDeleted, 0) in BaselineSamples(pdbs, excluded)
  {
    if pdbs != [] {
      BaselineSamplesSpec(pdbs[..|pdbs| - 1], excluded);
      assert pdbs == pdbs[..|pdbs| - 1] + [pdbs[|pdbs| - 1]];
    }
  }

  /** The baseline samples are one "deleted" sample at value 0 per listed
      entry that is not excluded and blocks, in listing order, and the
      entries so sampled are exactly the listed non-excluded blocking PDBs. */
  lemma {:induction false} BaselineSamplesOnePerEntry(pdbs: seq<Pdb>, excluded: seq<string>)
    ensures |BaselineSamples(pdbs, excluded)| == |BlockingListed(pdbs, excluded)|
    ensures forall i :: 0 <= i < |BlockingListed(pdbs, excluded)| ==>
      BaselineSamples(pdbs, excluded)[i] == Metric(BlockingListed(pdbs, excluded)[i], PodDisruptionBudgetDeleted, 0)
    ensures forall p :: p in BlockingListed(pdbs, excluded) <==>
      p in pdbs && p.namespace !in excluded && IsBlocking(p)
  {
    if pdbs != [] {
      var init := pdbs[..|pdbs| - 1];
      BaselineSamplesOnePerEntry(init, excluded);
      assert pdbs == init + [pdbs[|pdbs| - 1]];
    }
  }

  /** An excluded namespace shows up in neither grouping and gets no sample. */
  lemma ExcludedInvisible(pdbs: seq<Pdb>, excluded: seq<string>, ns: string)
    requires ns in excluded
    ensures var g := Grouped(pdbs, excluded);
      ns !in AddMultiple(map[], g, g.Keys) && ns !in AddBlocking(map[], pdbs, excluded)
    ensures forall e :: e in BaselineSamples(pdbs, excluded) ==> e.pdb.namespace != ns
  {
    ScanMultipleSpec(pdbs, excluded, ns);
    AddBlockingSpec(map[], pdbs, excluded, ns);
    BaselineSamplesSpec(pdbs, excluded);
  }
}

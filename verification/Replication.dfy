/** What the copy and prune loops keep and achieve, whatever their calls meet. */
module Replication {
  import opened Cluster
  import opened Provision

  // ---------------------------------------------------------------- what one call does to replicas

  lemma PutHas(site: Site, w: World, st: Stamp, n: string, other: Op)
    requires Has(site, w, st, n) && !other.DeleteSecret?
    ensures Has(site, Apply(site, w, other), st, n)
  {
  }

  // ---------------------------------------------------------------- invariants through the loops

  ghost predicate PutsKeep(site: Site, st: Stamp, names: seq<string>, inv: World -> bool) {
    && (forall w, n, typ, data :: inv(w) && n in names ==> inv(Apply(site, w, PutSecret(st, n, typ, data))))
    && (st.ImagePull? ==> forall w :: inv(w) ==> inv(Apply(site, w, CreateNamespace)))
  }

  /** Pruning deletes only replicas, and none to be kept. */
  ghost predicate PrunesKeep(site: Site, st: Stamp, keep: seq<string>, inv: World -> bool) {
    forall w, n :: inv(w) && n !in keep && Has(site, w, st, n) ==> inv(Apply(site, w, DeleteSecret(st, n)))
  }

  lemma CopyKeeps(site: Site, s: Sys, st: Stamp, name: string, inv: World -> bool)
    requires Guarded(site, s, inv) && PutsKeep(site, st, [name], inv)
    ensures Guarded(site, Copy(site, s, st, name).s, inv)
    ensures Still(s.ticks) ==> Still(Copy(site, s, st, name).s.ticks)
  {
    var look := Look(site, s);
    LookKeeps(site, s, inv);
    if look.a == Done && Ref(site.pod, name) in look.s.w.secrets {
      var src := look.s.w.secrets[Ref(site.pod, name)];
      var ready := if st.ImagePull? then Do(site, look.s, CreateNamespace) else look;
      if st.ImagePull? {
        DoKeeps(site, look.s, CreateNamespace, inv);
      }
      assert name in [name];
      DoKeeps(site, ready.s, PutSecret(st, name, src.typ, src.data), inv);
    }
  }

  lemma {:induction false} CopyAllKeeps(site: Site, s: Sys, st: Stamp, names: seq<string>, inv: World -> bool)
    requires Guarded(site, s, inv) && PutsKeep(site, st, names, inv)
    ensures Guarded(site, CopyAll(site, s, st, names).s, inv)
    ensures Still(s.ticks) ==> Still(CopyAll(site, s, st, names).s.ticks)
    decreases |names|
  {
    if names == [] {
    } else {
      CopyKeeps(site, s, st, names[0], inv);
      CopyAllKeeps(site, Copy(site, s, st, names[0]).s, st, names[1..], inv);
    }
  }

  /** One deletion of a listed replica, seen from inv and from the other replicas. */
  lemma DeleteOne(site: Site, s: Sys, st: Stamp, n: string, keep: seq<string>, inv: World -> bool)
    requires Guarded(site, s, inv) && PrunesKeep(site, st, keep, inv)
    requires n !in keep && Has(site, s.w, st, n)
    ensures Guarded(site, Do(site, s, DeleteSecret(st, n)).s, inv)
    ensures Still(s.ticks) ==> Still(Do(site, s, DeleteSecret(st, n)).s.ticks)
    ensures forall m | m != n :: Has(site, s.w, st, m) ==> Has(site, Do(site, s, DeleteSecret(st, n)).s.w, st, m)
  {
    var op := DeleteSecret(st, n);
    forall w | inv(w) && Rely(site, s.w, w) ensures inv(Apply(site, w, op)) {
      RelyHas(site, s.w, w, st, n);
    }
    DoKeeps(site, s, op, inv);
    if s.ticks != [] {
      var w := Arrive(site, s.w, s.ticks[0]);
      RelyRefl(site, s.w);
      forall m | m != n ensures Has(site, s.w, st, m) ==> Has(site, w, st, m) {
        RelyHas(site, s.w, w, st, m);
      }
    }
  }

  lemma {:induction false} DeleteAllKeeps(
      site: Site, s: Sys, st: Stamp, listed: seq<string>, keep: seq<string>, inv: World -> bool)
    requires Guarded(site, s, inv) && PrunesKeep(site, st, keep, inv)
    requires forall n | n in listed :: Has(site, s.w, st, n)
    requires forall i, j | 0 <= i < j < |listed| :: listed[i] != listed[j]
    ensures Guarded(site, DeleteAll(site, s, st, listed, keep).s, inv)
    ensures Still(s.ticks) ==> Still(DeleteAll(site, s, st, listed, keep).s.ticks)
    decreases |listed|
  {
    if listed == [] {
    } else {
      var n, rest := listed[0], listed[1..];
      assert forall m | m in rest :: m in listed && m != n;
      if n in keep {
        DeleteAllKeeps(site, s, st, rest, keep, inv);
      } else {
        DeleteOne(site, s, st, n, keep, inv);
        var next := Do(site, s, DeleteSecret(st, n));
        if next.a == Done {
          DeleteAllKeeps(site, next.s, st, rest, keep, inv);
        }
      }
    }
  }

  lemma PruneKeeps(site: Site, s: Sys, st: Stamp, keep: seq<string>, inv: World -> bool)
    requires Guarded(site, s, inv) && PrunesKeep(site, st, keep, inv)
    ensures Guarded(site, Prune(site, s, st, keep).s, inv)
    ensures Still(s.ticks) ==> Still(Prune(site, s, st, keep).s.ticks)
  {
    LookKeeps(site, s, inv);
    var list := ListMarked(site, s, st);
    if list.a == Done {
      DeleteAllKeeps(site, list.s, st, list.names, keep, inv);
    }
  }

  lemma ReconcileKeeps(site: Site, s: Sys, st: Stamp, names: seq<string>, inv: World -> bool)
    requires Guarded(site, s, inv) && PutsKeep(site, st, names, inv) && PrunesKeep(site, st, names, inv)
    ensures Guarded(site, Reconcile(site, s, st, names).s, inv)
    ensures Still(s.ticks) ==> Still(Reconcile(site, s, st, names).s.ticks)
  {
    CopyAllKeeps(site, s, st, names, inv);
    var copied := CopyAll(site, s, st, names);
    if copied.a == Done {
      PruneKeeps(site, copied.s, st, names, inv);
    }
  }

  // ---------------------------------------------------------------- what success means

  lemma CopyGives(site: Site, s: Sys, st: Stamp, name: string)
    requires Copy(site, s, st, name).a == Done
    ensures Has(site, Copy(site, s, st, name).s.w, st, name)
  {
  }

  lemma HasIsKept(site: Site, st: Stamp, n: string, names: seq<string>)
    ensures RelyClosed(site, (w: World) => Has(site, w, st, n))
    ensures PutsKeep(site, st, names, (w: World) => Has(site, w, st, n))
    ensures n in names ==> PrunesKeep(site, st, names, (w: World) => Has(site, w, st, n))
  {
    forall a, b | Has(site, a, st, n) && Rely(site, a, b) ensures Has(site, b, st, n) {
      RelyHas(site, a, b, st, n);
    }
  }

  lemma {:induction false} CopyAllGives(site: Site, s: Sys, st: Stamp, names: seq<string>, n: string)
    requires CopyAll(site, s, st, names).a == Done && n in names
    ensures Has(site, CopyAll(site, s, st, names).s.w, st, n)
    decreases |names|
  {
    var first := Copy(site, s, st, names[0]);
    if n == names[0] {
      CopyGives(site, s, st, n);
      HasIsKept(site, st, n, names[1..]);
      CopyAllKeeps(site, first.s, st, names[1..], (w: World) => Has(site, w, st, n));
    } else {
      CopyAllGives(site, first.s, st, names[1..], n);
    }
  }

  lemma {:induction false} DeleteAllLeaves(
      site: Site, s: Sys, st: Stamp, listed: seq<string>, keep: seq<string>, n: string)
    requires DeleteAll(site, s, st, listed, keep).a == Done
    requires Has(site, s.w, st, n) ==> n in listed
    ensures Has(site, DeleteAll(site, s, st, listed, keep).s.w, st, n) ==> n in keep
    decreases |listed|
  {
    if listed == [] {
    } else {
      if listed[0] in keep {
        if n == listed[0] {
        } else {
          DeleteAllLeaves(site, s, st, listed[1..], keep, n);
        }
      } else {
        var op := DeleteSecret(st, listed[0]);
        var w := DoEffect(site, s, op);
        var next := Do(site, s, op);
        RelyHas(site, s.w, w, st, n);
        DeleteAllLeaves(site, next.s, st, listed[1..], keep, n);
      }
    }
  }

  lemma PruneLeaves(site: Site, s: Sys, st: Stamp, keep: seq<string>, n: string)
    requires Prune(site, s, st, keep).a == Done
    ensures Has(site, Prune(site, s, st, keep).s.w, st, n) ==> n in keep
  {
    var list := ListMarked(site, s, st);
    DeleteAllLeaves(site, list.s, st, list.names, keep, n);
  }

  // ---------------------------------------------------------------- where the contents come from

  /** The replica is there, labelled as the provider's, with the type and data of src. */
  predicate Mirrors(site: Site, w: World, st: Stamp, n: string, src: Secret) {
    var r, m := Place(site, st, n), SecretsOf(w, st);
    && Has(site, w, st, n) && m[r].typ == src.typ && m[r].data == src.data
    && "app.kubernetes.io/managed-by" in m[r].labels
    && m[r].labels["app.kubernetes.io/managed-by"] == "service-provider-argocd"
  }

  lemma MirrorsIsKept(site: Site, st: Stamp, n: string, src: Secret, names: seq<string>)
    ensures RelyClosed(site, (w: World) => Mirrors(site, w, st, n, src))
    ensures n !in names ==> PutsKeep(site, st, names, (w: World) => Mirrors(site, w, st, n, src))
    ensures n in names ==> PrunesKeep(site, st, names, (w: World) => Mirrors(site, w, st, n, src))
  {
    forall a, b | Mirrors(site, a, st, n, src) && Rely(site, a, b) ensures Mirrors(site, b, st, n, src) {
      RelyHas(site, a, b, st, n);
    }
  }

  /** A copy has the content its source had when it was read, which is where the run cut off after
      its first call ends. */
  lemma CopyMirrors(site: Site, s: Sys, st: Stamp, name: string)
    requires Copy(site, s, st, name).a == Done
    ensures s.ticks != [] && var read := Copy(site, Sys(s.w, s.ticks[..1]), st, name);
      && read.a == Halted && Ref(site.pod, name) in read.s.w.secrets
      && Mirrors(site, Copy(site, s, st, name).s.w, st, name, read.s.w.secrets[Ref(site.pod, name)])
  {
  }

  /** A copy that got through takes the same steps when the run is cut off later on. */
  lemma CopyInPrefix(site: Site, s: Sys, st: Stamp, name: string, k: nat) returns (c: nat)
    requires Copy(site, s, st, name).a == Done
    ensures c <= |s.ticks| && Copy(site, s, st, name).s.ticks == s.ticks[c..]
    ensures c <= c + k <= |s.ticks| ==>
      Copy(site, Sys(s.w, s.ticks[..c + k]), st, name)
      == Out(Sys(Copy(site, s, st, name).s.w, s.ticks[c..][..k]), Done)
  {
    c := if st.ImagePull? then 3 else 2;
    if c + k <= |s.ticks| {
      assert s.ticks[..c + k][c..] == s.ticks[c..][..k];
    }
  }

  /** After k calls of the copy loop it is cut off, the source is there, and its replica has that
      very content when the whole loop is through. */
  ghost predicate CopiedSince(site: Site, s: Sys, st: Stamp, names: seq<string>, n: string, k: nat) {
    && k <= |s.ticks|
    && var read := CopyAll(site, Sys(s.w, s.ticks[..k]), st, names);
       && read.a == Halted && Ref(site.pod, n) in read.s.w.secrets
       && Mirrors(site, CopyAll(site, s, st, names).s.w, st, n, read.s.w.secrets[Ref(site.pod, n)])
  }

  lemma FirstCopyMirrors(site: Site, s: Sys, st: Stamp, names: seq<string>)
    requires CopyAll(site, s, st, names).a == Done && names != [] && names[0] !in names[1..]
    ensures CopiedSince(site, s, st, names, names[0], 1)
  {
    var n, first := names[0], Copy(site, s, st, names[0]);
    CopyMirrors(site, s, st, n);
    var src := Copy(site, Sys(s.w, s.ticks[..1]), st, n).s.w.secrets[Ref(site.pod, n)];
    MirrorsIsKept(site, st, n, src, names[1..]);
    CopyAllKeeps(site, first.s, st, names[1..], (w: World) => Mirrors(site, w, st, n, src));
  }

  lemma LaterCopyMirrors(site: Site, s: Sys, st: Stamp, names: seq<string>, n: string, rest: nat) returns (k: nat)
    requires CopyAll(site, s, st, names).a == Done && names != []
    requires CopiedSince(site, Copy(site, s, st, names[0]).s, st, names[1..], n, rest)
    ensures CopiedSince(site, s, st, names, n, k)
  {
    var c := CopyInPrefix(site, s, st, names[0], rest);
    k := c + rest;
  }

  lemma {:induction false} CopyAllMirrors(site: Site, s: Sys, st: Stamp, names: seq<string>, n: string) returns (k: nat)
    requires CopyAll(site, s, st, names).a == Done && n in names
    ensures CopiedSince(site, s, st, names, n, k)
    decreases |names|
  {
    if n in names[1..] {
      var rest := CopyAllMirrors(site, Copy(site, s, st, names[0]).s, st, names[1..], n);
      k := LaterCopyMirrors(site, s, st, names, n, rest);
    } else {
      FirstCopyMirrors(site, s, st, names);
      k := 1;
    }
  }

  /** After k calls of the reconcile the source is there, and its replica has that very content
      when the reconcile is through. */
  ghost predicate MirroredSince(site: Site, s: Sys, st: Stamp, names: seq<string>, n: string, k: nat) {
    && k <= |s.ticks|
    && var mid := Reconcile(site, Sys(s.w, s.ticks[..k]), st, names).s.w;
       && Ref(site.pod, n) in mid.secrets
       && Mirrors(site, Reconcile(site, s, st, names).s.w, st, n, mid.secrets[Ref(site.pod, n)])
  }

  /** After a successful reconcile the replicas of the kind are exactly the requested names, whatever
      was there before, in whatever order and with whatever duplicates they were requested; and
      each has the type and data its source had in some state of that run. */
  lemma ReconcileExact(site: Site, s: Sys, st: Stamp, names: seq<string>)
    requires Reconcile(site, s, st, names).a == Done
    ensures forall n :: Has(site, Reconcile(site, s, st, names).s.w, st, n) <==> n in names
    ensures forall n | n in names :: exists k :: MirroredSince(site, s, st, names, n, k)
  {
    forall n ensures Has(site, Reconcile(site, s, st, names).s.w, st, n) ==> n in names {
      PruneLeaves(site, CopyAll(site, s, st, names).s, st, names, n);
    }
    forall n | n in names ensures exists k :: MirroredSince(site, s, st, names, n, k) {
      var k := ReconcileMirrors(site, s, st, names, n);
    }
    forall n | n in names ensures Has(site, Reconcile(site, s, st, names).s.w, st, n) {
      var k :| MirroredSince(site, s, st, names, n, k);
    }
  }

  lemma ReconcileMirrors(site: Site, s: Sys, st: Stamp, names: seq<string>, n: string) returns (k: nat)
    requires Reconcile(site, s, st, names).a == Done && n in names
    ensures MirroredSince(site, s, st, names, n, k)
  {
    k := CopyAllMirrors(site, s, st, names, n);
    var src := CopyAll(site, Sys(s.w, s.ticks[..k]), st, names).s.w.secrets[Ref(site.pod, n)];
    MirrorsIsKept(site, st, n, src, names);
    PruneKeeps(site, CopyAll(site, s, st, names).s, st, names, (w: World) => Mirrors(site, w, st, n, src));
  }

  /** Make before break: a replica that is there and still referenced stays there in every
      intermediate state, failed and cut-off runs included. */
  lemma ReconcileNeverBreaks(site: Site, s: Sys, st: Stamp, names: seq<string>, n: string)
    requires n in names && Has(site, s.w, st, n)
    ensures Has(site, Reconcile(site, s, st, names).s.w, st, n)
  {
    HasIsKept(site, st, n, names);
    ReconcileKeeps(site, s, st, names, (w: World) => Has(site, w, st, n));
  }
}

/**
 The outer migration runner (ops/migrate.py): the control plane, then every
 tenant, then the graph. Each Alembic run is one transaction, and a no-op at
 head. A run may die before any operation; the next one starts over.
 */
module MigratePlatform {
  import opened JsonText
  import opened Neo4jRunner

  /** What is at head, the graph, and the tenants for which an event was emitted. */
  datatype Platform = Platform(control: bool, tenants: seq<bool>, graph: Graph, events: seq<nat>)

  datatype Going = Going(platform: Platform, left: Option<nat>)

  /** One operation of a run that lives. */
  function Live(left: Option<nat>): Option<nat> {
    match left case Some(n) => (if n > 0 then Some(n - 1) else None) case None => None
  }

  function ControlPhase(g: Going): Going {
    match Live(g.left)
    case None => Going(g.platform, None)
    case Some(n) => Going(g.platform.(control := true), Some(n))
  }

  /** Migrate one tenant, then emit its event. */
  function TenantStep(g: Going, t: nat): Going
    requires t < |g.platform.tenants|
  {
    match Live(g.left)
    case None => Going(g.platform, None)
    case Some(n) =>
      var p := g.platform.(tenants := g.platform.tenants[t := true]);
      match Live(Some(n))
      case None => Going(p, None)
      case Some(m) => Going(p.(events := p.events + [t]), Some(m))
  }

  function TenantPhase(g: Going, k: nat): (r: Going)
    requires k <= |g.platform.tenants|
    ensures |r.platform.tenants| == |g.platform.tenants|
  {
    if k == 0 then g else TenantStep(TenantPhase(g, k - 1), k - 1)
  }

  function GraphPhase(g: Going, files: seq<File>): Going {
    var r := ApplyFiles(Run(g.platform.graph, g.left), files);
    Going(g.platform.(graph := r.graph), r.left)
  }

  function Migrate(g: Going, files: seq<File>): Going {
    var h := ControlPhase(g);
    GraphPhase(TenantPhase(h, |h.platform.tenants|), files)
  }

  function Migrations(p: Platform, files: seq<File>, lives: seq<nat>): Platform {
    if lives == [] then p
    else Migrate(Going(Migrations(p, files, lives[..|lives| - 1]), Some(lives[|lives| - 1])), files).platform
  }

  // ---------------------------------------------------------------- as it runs

  class Runner {
    var platform: Platform
    var left: Option<nat>

    constructor (platform: Platform, lives: nat)
      ensures State() == Going(platform, Some(lives))
    {
      this.platform, this.left := platform, Some(lives);
    }

    function State(): Going
      reads this
    {
      Going(platform, left)
    }

    method RunControlPlanePhase()
      modifies this
      ensures State() == ControlPhase(old(State()))
    {
      left := Live(left);
      if left.Some? {
        platform := platform.(control := true);
      }
    }

    method RunPerTenantPhase()
      modifies this
      ensures State() == TenantPhase(old(State()), |old(platform).tenants|)
    {
      ghost var before := State();
      var t := 0;
      while t < |platform.tenants|
        invariant 0 <= t <= |platform.tenants| == |before.platform.tenants|
        invariant State() == TenantPhase(before, t)
        decreases |platform.tenants| - t
      {
        left := Live(left);
        if left.Some? {
          platform := platform.(tenants := platform.tenants[t := true]);
          left := Live(left);
          if left.Some? {
            platform := platform.(events := platform.events + [t]);
          }
        }
        t := t + 1;
      }
    }

    method RunGraphPhase(files: seq<File>)
      modifies this
      ensures State() == GraphPhase(old(State()), files)
    {
      if left.Some? {
        var driver := new Driver(platform.graph, left.value);
        driver.Migrate(files);
        platform, left := platform.(graph := driver.graph), driver.left;
      } else {
        DeadFiles(Run(platform.graph, left), files);
      }
    }

    /** `main`. */
    method MigrateAll(files: seq<File>)
      modifies this
      ensures State() == Migrate(old(State()), files)
    {
      RunControlPlanePhase();
      RunPerTenantPhase();
      RunGraphPhase(files);
    }
  }

  lemma {:induction false} DeadFiles(r: Run, files: seq<File>)
    requires r.left == None
    ensures ApplyFiles(r, files) == r
  {
    if files != [] {
      DeadFiles(r, files[..|files| - 1]);
    }
  }

  // ---------------------------------------------------------------- order of the phases

  ghost predicate AllAtHead(p: Platform) { forall t | 0 <= t < |p.tenants| :: p.tenants[t] }

  /** No later phase is ahead of an earlier one, no tenant ahead of one listed before it. */
  ghost predicate InPhase(p: Platform) {
    && (forall t | 0 <= t < |p.tenants| && p.tenants[t] :: p.control)
    && (forall s, t | 0 <= s < t < |p.tenants| && p.tenants[t] :: p.tenants[s])
    && (p.graph.trace != [] || p.graph.applied != {} ==> p.control && AllAtHead(p))
    && (forall e | e in p.events :: e < |p.tenants| && p.tenants[e])
  }

  /** After `k` tenants a living run has them at head, and has emitted an event for each. */
  ghost predicate After(start: Platform, g: Going, k: nat) {
    && InPhase(g.platform) && |g.platform.tenants| == |start.tenants| && k <= |start.tenants|
    && g.platform.graph == start.graph
    && (g.left.Some? ==>
          && g.platform.control
          && (forall t | 0 <= t < k :: g.platform.tenants[t])
          && g.platform.events == start.events + Upto(k))
  }

  function Upto(k: nat): seq<nat> { seq(k, i => i) }

  lemma StepKeepsPhase(p: Platform, t: nat)
    requires InPhase(p) && p.control && t < |p.tenants| && forall s | 0 <= s < t :: p.tenants[s]
    ensures InPhase(p.(tenants := p.tenants[t := true]))
    ensures InPhase(p.(tenants := p.tenants[t := true], events := p.events + [t]))
  {
  }

  lemma OneTenantInPhase(start: Platform, h: Going, k: nat)
    requires After(start, h, k) && k < |start.tenants|
    ensures After(start, TenantStep(h, k), k + 1)
  {
    if h.left.Some? {
      StepKeepsPhase(h.platform, k);
      assert Upto(k + 1) == Upto(k) + [k];
      assert start.events + Upto(k) + [k] == start.events + Upto(k + 1);
    }
  }

  lemma {:induction false} TenantsInPhase(start: Platform, g: Going, k: nat, h: Going)
    requires After(start, g, 0) && k <= |start.tenants| && h == TenantPhase(g, k)
    ensures After(start, h, k)
  {
    if k > 0 {
      TenantsInPhase(start, g, k - 1, TenantPhase(g, k - 1));
      OneTenantInPhase(start, TenantPhase(g, k - 1), k - 1);
    }
  }

  /** What one run leaves, dead or alive, and what a completed one has done. */
  lemma RunInPhase(p: Platform, files: seq<File>, life: nat)
    requires InPhase(p)
    ensures var g := Migrate(Going(p, Some(life)), files);
            InPhase(g.platform) && |g.platform.tenants| == |p.tenants| &&
            (g.left.Some? ==>
               g.platform.control && AllAtHead(g.platform) && g.platform.events == p.events + Upto(|p.tenants|) &&
               exists n: nat :: Completes(p, g.platform, files, n))
  {
    var h := ControlPhase(Going(p, Some(life)));
    assert p.events + Upto(0) == p.events;
    var g := TenantPhase(h, |p.tenants|);
    TenantsInPhase(p, h, |p.tenants|, g);
    if g.left == None {
      DeadFiles(Run(g.platform.graph, g.left), files);
    } else {
      assert AllAtHead(g.platform);
      if ApplyFiles(Run(p.graph, g.left), files).left.Some? {
        assert Completes(p, GraphPhase(g, files).platform, files, g.left.value);
      }
    }
  }

  /** The graph has been through a run of the Cypher runner that completed. */
  ghost predicate Completes(p: Platform, q: Platform, files: seq<File>, life: nat) {
    var r := ApplyFiles(Run(p.graph, Some(life)), files);
    r.left.Some? && q.graph == r.graph
  }

  /**
   However often runs die, a tenant is at head only if the control plane is, and
   every tenant listed before it; the graph is touched only with every tenant at
   head; an event tells of a tenant at head.
   */
  lemma {:induction false} PhasesInOrder(p: Platform, files: seq<File>, lives: seq<nat>)
    requires InPhase(p)
    ensures InPhase(Migrations(p, files, lives)) && |Migrations(p, files, lives).tenants| == |p.tenants|
  {
    if lives != [] {
      PhasesInOrder(p, files, lives[..|lives| - 1]);
      RunInPhase(Migrations(p, files, lives[..|lives| - 1]), files, lives[|lives| - 1]);
    }
  }
}

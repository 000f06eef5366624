/**
 What each kind of selector selects (internal/selector/selector.go): address blocks as ranges, host suffixes as text,
 workloads by their fields, and where each kind may be used.
 */
module SelectorMeaning {
  import opened Basics
  import opened RefCounts
  import opened IdentityTables
  import opened EngineIndex
  import opened Selectors

  /** A CIDR block is the range of addresses of its family from its first address on. */
  lemma BlockIsRange(p: Prefix, a: Addr)
    ensures Contains(p, a) <==>
            && p.hosts > 0 && ((p.network.V4? && a.V4?) || (p.network.V6? && a.V6?))
            && var first := p.network.bits - p.network.bits % p.hosts;
               first <= a.bits < first + p.hosts
  {
    if p.hosts > 0 && ((p.network.V4? && a.V4?) || (p.network.V6? && a.V6?)) {
      SameBlock(p.network.bits, a.bits, p.hosts);
    }
  }

  lemma SameBlock(x: nat, y: nat, d: nat)
    requires d > 0
    ensures y / d == x / d <==> x - x % d <= y < x - x % d + d
  {
    assert x == d * (x / d) + x % d && y == d * (y / d) + y % d;
    if y / d < x / d {
      Scaled(d, y / d, x / d);
    } else if y / d > x / d {
      Scaled(d, x / d, y / d);
    }
  }

  lemma Scaled(d: nat, a: int, b: int)
    requires a < b
    ensures d * a + d <= d * b
  {
    assert d * (b - a) >= d by {
      assert b - a >= 1;
      Grows(d, b - a);
    }
    assert d * b == d * a + d * (b - a);
  }

  lemma Grows(d: nat, n: int)
    requires n >= 1
    ensures d * n >= d
  {
    assert d * n == d + d * (n - 1);
    assert d * (n - 1) >= 0;
  }

  /** A suffix selects hosts with something before it, and not the suffix alone. */
  lemma SuffixIsText(host: string, suffix: string)
    ensures EndsWith(host, suffix) <==> exists before: string :: before != "" && host == before + suffix
  {
    if EndsWith(host, suffix) {
      var before := host[..|host| - |suffix|];
      assert before != "" && host == before + suffix;
    }
    if before: string :| before != "" && host == before + suffix {
      assert host[|host| - |suffix|..] == suffix;
    }
  }

  /** What each selector asks of a caller. */
  lemma SourceMeans(s: Selector, addr: Addr, w: Option<EngineWorkload>, externalAllowed: bool)
    ensures var pod := w.Some? && w.value.kind == KindPod;
            SelectsSource(s, addr, w, externalAllowed) <==>
            match s
            case Anything => true
            case Ip(a) => addr == a && addr != Invalid
            case Cidr(p) => Contains(p, addr)
            case Host(_) => false
            case HostSuffix(_) => false
            case External => w == None && externalAllowed
            case OfService(ref) => pod && ref in w.value.services
            case InNamespace(ns) => pod && w.value.namespace == ns
            case AsAccount(ns, sa) => pod && w.value.namespace == ns && w.value.serviceAccount == sa
            case AsSpiffe(id) => pod && w.value.spiffeID == id && id != ("", "", "")
            case WithLabels(l) =>
              pod && l.namespace in {"", w.value.namespace} && l.required.Items <= w.value.labels.Items
  {
    if s.WithLabels? && w.Some? {
      LabelsAreItems(s.labels, w.value);
    }
    hide HasLabels;
    assert s.Cidr? && Contains(s.prefix, addr) ==> !addr.Invalid?;
  }

  lemma LabelsAreItems(l: Labels, w: EngineWorkload)
    ensures HasLabels(l, w) <==> l.namespace in {"", w.namespace} && l.required.Items <= w.labels.Items
  {
    if HasLabels(l, w) {
      forall i | i in l.required.Items ensures i in w.labels.Items {
        assert i.0 in l.required && l.required[i.0] == i.1;
      }
    }
    if l.required.Items <= w.labels.Items {
      forall k | k in l.required ensures k in w.labels && w.labels[k] == l.required[k] {
        assert (k, l.required[k]) in l.required.Items;
        assert (k, l.required[k]) in w.labels.Items;
      }
    }
  }

  /** What each selector asks of a target. */
  lemma DestinationMeans(s: Selector, addr: Addr, host: string, services: set<ServiceRef>)
    ensures SelectsDestination(s, addr, host, services) <==>
            match s
            case Anything => true
            case Ip(a) => addr == a && addr != Invalid
            case Cidr(p) => Contains(p, addr)
            case Host(h) => host == h && h != ""
            case HostSuffix(h) => EndsWith(host, h)
            case OfService(ref) => ref in services
            case InNamespace(ns) => exists name :: ServiceRef(ns, name) in services
            case _ => false
  {
    hide EndsWith;
    if s.HostSuffix? && EndsWith(host, s.suffix) {
      SuffixIsText(host, s.suffix);
    }
    if s.InNamespace? {
      if ref :| ref in services && ref.namespace == s.namespace {
        assert ServiceRef(s.namespace, ref.name) in services;
      }
    }
    assert s.Cidr? && Contains(s.prefix, addr) ==> !addr.Invalid?;
  }

  /** Where each kind may be used: hosts for targets only, identities for callers only and with a workload map. */
  lemma AcceptedWhere(w: Written, side: Side, allowWorkloads: bool)
    ensures Accepted(w, side, allowWorkloads) <==>
            match w
            case Malformed => false
            case Written(s) =>
              match s
              case Anything => true
              case Ip(_) => true
              case Cidr(_) => true
              case Host(_) => side == Destination
              case HostSuffix(_) => side == Destination
              case OfService(_) => allowWorkloads
              case InNamespace(_) => allowWorkloads
              case External => side == Source && allowWorkloads
              case AsAccount(_, _) => side == Source && allowWorkloads
              case AsSpiffe(_) => side == Source && allowWorkloads
              case WithLabels(_) => side == Source && allowWorkloads
  {
  }
}

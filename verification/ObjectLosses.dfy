/** Which candidates make the grouping lose objects: one whose linked member was the partner of an earlier link. */
module ObjectLosses {
  import opened Common
  import opened Candidates
  import opened UnionForest
  import opened ObjectSplit
  import opened ObjectGroups

  /** Candidate k, taken after those before it, links two objects. */
  ghost predicate LinksAt(n: nat, infos: seq<TrackInfo>, k: nat)
    requires k < |infos| && InnerPairs(infos, n)
  {
    var g, t := TakenAll(n, infos, k), infos[k];
    !(BothAssigned(g.m, t) || g.s.root[Partner(g.m, t)] == Child(g.m, t))
  }

  ghost function ChildAt(n: nat, infos: seq<TrackInfo>, k: nat): nat
    requires k < |infos| && InnerPairs(infos, n)
  {
    Child(TakenAll(n, infos, k).m, infos[k])
  }

  ghost function PartnerAt(n: nat, infos: seq<TrackInfo>, k: nat): nat
    requires k < |infos| && InnerPairs(infos, n)
  {
    Partner(TakenAll(n, infos, k).m, infos[k])
  }

  /** Some link among the first k candidates had object x as its partner. */
  ghost predicate WasPartner(n: nat, infos: seq<TrackInfo>, k: nat, x: nat)
    requires k <= |infos| && InnerPairs(infos, n)
  {
    exists j: nat :: j < k && LinksAt(n, infos, j) && PartnerAt(n, infos, j) == x
  }

  /** Among the first k candidates none links an object that was the partner of an earlier link. */
  ghost predicate NoPartnerIsLinked(n: nat, infos: seq<TrackInfo>, k: nat)
    requires k <= |infos| && InnerPairs(infos, n)
  {
    forall l: nat :: l < k && LinksAt(n, infos, l) ==> !WasPartner(n, infos, l, ChildAt(n, infos, l))
  }

  /** No linked object has collected others. */
  ghost predicate LinkedAreAlone(g: Grouping) {
    |g.groups| == |g.m| && forall c :: 0 <= c < |g.m| && g.m[c] >= 0 ==> |g.groups[c]| == 1
  }

  /** Roots that have collected others are those that were partners. */
  ghost predicate HubsWerePartners(n: nat, infos: seq<TrackInfo>, k: nat)
    requires k <= |infos| && InnerPairs(infos, n)
  {
    var g := TakenAll(n, infos, k);
    forall c: nat :: c < n && g.m[c] < 0 ==> (|g.groups[c]| > 1 <==> WasPartner(n, infos, k, c))
  }

  /** The root of an object that is not a root itself has collected others. */
  lemma {:induction false} RootHasMembers(g: Grouping, x: nat)
    requires Forest(g.m, g.s) && GroupsOk(g.m, g.groups) && x < |g.m| && g.m[x] >= 0
    ensures |g.groups| == |g.m| && g.s.root[x] < |g.m| && |g.groups[g.s.root[x]]| > 1
    decreases g.s.top - g.s.height[x]
  {
    hide GroupsOk;
    GroupsAreSized(g.m, g.groups);
    var p := g.m[x];
    if g.m[p] < 0 {
      ParentHasMembers(g.m, g.groups, x);
    } else {
      RootHasMembers(g, p);
    }
  }

  /** What candidate k does to the grouping. */
  lemma NextGrouping(n: nat, infos: seq<TrackInfo>, k: nat)
    requires k < |infos| && InnerPairs(infos, n)
    ensures var g, g' := TakenAll(n, infos, k), TakenAll(n, infos, k + 1);
      if LinksAt(n, infos, k) then
        var c, r := ChildAt(n, infos, k), g.s.root[PartnerAt(n, infos, k)];
        && c < n && r < n && c != r && g.m[c] < 0 && g.m[r] < 0
        && g'.m == g.m[c := r] && g'.groups == g.groups[r := g.groups[r] + [c]]
      else g'.m == g.m && g'.groups == g.groups
  {
    hide TakenAll, Linked, Forest;
    TakenNext(n, infos, k);
    RootsOf(TakenAll(n, infos, k));
  }

  lemma RootsOf(g: Grouping)
    requires Forest(g.m, g.s)
    ensures |g.s.root| == |g.m| && forall x :: 0 <= x < |g.m| ==> g.s.root[x] < |g.m| && g.m[g.s.root[x]] < 0
  {
  }

  lemma TakenNext(n: nat, infos: seq<TrackInfo>, k: nat)
    requires k < |infos| && InnerPairs(infos, n)
    ensures TakenAll(n, infos, k + 1) == Taken(TakenAll(n, infos, k), infos[k])
    ensures Forest(TakenAll(n, infos, k).m, TakenAll(n, infos, k).s)
  {
    hide Forest, Taken, InnerPairs;
  }

  lemma WasPartnerNext(n: nat, infos: seq<TrackInfo>, k: nat, x: nat)
    requires k < |infos| && InnerPairs(infos, n)
    ensures WasPartner(n, infos, k + 1, x) <==>
      WasPartner(n, infos, k, x) || (LinksAt(n, infos, k) && PartnerAt(n, infos, k) == x)
  {
    hide LinksAt, PartnerAt;
  }

  lemma NoPartnerIsLinkedNext(n: nat, infos: seq<TrackInfo>, k: nat)
    requires k < |infos| && InnerPairs(infos, n)
    ensures NoPartnerIsLinked(n, infos, k + 1) <==>
      NoPartnerIsLinked(n, infos, k) && (LinksAt(n, infos, k) ==> !WasPartner(n, infos, k, ChildAt(n, infos, k)))
  {
    hide LinksAt, ChildAt, WasPartner;
  }

  /** The partner of a link is a root itself, or its root has collected others already. */
  lemma PartnerOrHub(n: nat, infos: seq<TrackInfo>, k: nat)
    requires k < |infos| && InnerPairs(infos, n) && LinksAt(n, infos, k)
    ensures var g, p := TakenAll(n, infos, k), PartnerAt(n, infos, k);
      && p < n && |g.s.root| == n && g.s.root[p] < n && (g.m[p] < 0 ==> g.s.root[p] == p)
      && (g.m[p] >= 0 ==> |g.groups[g.s.root[p]]| > 1)
  {
    hide TakenAll, GroupsOk;
    TakenNext(n, infos, k);
    TakenGroupsAreOk(n, infos, k);
    var g, p := TakenAll(n, infos, k), PartnerAt(n, infos, k);
    if g.m[p] >= 0 {
      RootHasMembers(g, p);
    }
  }

  lemma {:induction false} HubsArePartners(n: nat, infos: seq<TrackInfo>, k: nat)
    requires k <= |infos| && InnerPairs(infos, n)
    ensures HubsWerePartners(n, infos, k)
  {
    hide TakenAll, LinksAt, PartnerAt, ChildAt, WasPartner, Forest, InnerPairs;
    if k == 0 {
      NobodyWasPartner(n, infos);
    } else {
      HubsArePartners(n, infos, k - 1);
      NextGrouping(n, infos, k - 1);
      TakenGroupsAreOk(n, infos, k - 1);
      var g, g' := TakenAll(n, infos, k - 1), TakenAll(n, infos, k);
      GroupsAreNotEmpty(g.m, g.groups);
      if LinksAt(n, infos, k - 1) {
        PartnerOrHub(n, infos, k - 1);
      }
      forall c: nat | c < n && g'.m[c] < 0 ensures |g'.groups[c]| > 1 <==> WasPartner(n, infos, k, c) {
        WasPartnerNext(n, infos, k - 1, c);
      }
    }
  }

  lemma NobodyWasPartner(n: nat, infos: seq<TrackInfo>)
    requires InnerPairs(infos, n)
    ensures HubsWerePartners(n, infos, 0) && LinkedAreAlone(TakenAll(n, infos, 0))
  {
  }

  /** No linked object has collected others iff no candidate links an object that was the partner of an earlier link. */
  lemma {:induction false} LinkedAreAloneIff(n: nat, infos: seq<TrackInfo>, k: nat)
    requires k <= |infos| && InnerPairs(infos, n)
    ensures LinkedAreAlone(TakenAll(n, infos, k)) <==> NoPartnerIsLinked(n, infos, k)
  {
    hide TakenAll, LinksAt, PartnerAt, ChildAt, WasPartner, Forest, InnerPairs, NoPartnerIsLinked;
    if k == 0 {
      NobodyWasPartner(n, infos);
      NothingLinkedYet(n, infos);
    } else {
      LinkedAreAloneIff(n, infos, k - 1);
      NoPartnerIsLinkedNext(n, infos, k - 1);
      NextGrouping(n, infos, k - 1);
      HubsArePartners(n, infos, k - 1);
      TakenGroupsAreOk(n, infos, k - 1);
      var g, g' := TakenAll(n, infos, k - 1), TakenAll(n, infos, k);
      GroupsAreNotEmpty(g.m, g.groups);
      if LinksAt(n, infos, k - 1) {
        PartnerOrHub(n, infos, k - 1);
        OneMoreLinked(g, ChildAt(n, infos, k - 1), g.s.root[PartnerAt(n, infos, k - 1)], g');
      }
    }
  }

  lemma NothingLinkedYet(n: nat, infos: seq<TrackInfo>)
    requires InnerPairs(infos, n)
    ensures NoPartnerIsLinked(n, infos, 0)
  {
  }

  lemma OneMoreLinked(g: Grouping, c: nat, r: nat, g': Grouping)
    requires |g.groups| == |g.m| && c < |g.m| && r < |g.m| && c != r && g.m[c] < 0 && g.m[r] < 0
    requires g'.m == g.m[c := r] && g'.groups == g.groups[r := g.groups[r] + [c]]
    ensures LinkedAreAlone(g') <==> LinkedAreAlone(g) && |g.groups[c]| == 1
  {
    if LinkedAreAlone(g') {
      forall x | 0 <= x < |g.m| && g.m[x] >= 0 ensures |g.groups[x]| == 1 {
        assert g'.m[x] >= 0 && g'.groups[x] == g.groups[x];
      }
      assert g'.m[c] >= 0;
    }
  }

  /** Merging conserves objects iff, in the order of the candidates, none links an object that was the partner of an
      earlier link, and no oversized group vanishes. */
  lemma MergingConservesIff(n: nat, w: World, infos: seq<TrackInfo>, maxSize: real)
    requires InnerPairs(infos, n)
    requires RootsDefined(w, TakenAll(n, infos, |infos|).m, TakenAll(n, infos, |infos|).groups, maxSize)
    ensures var g := TakenAll(n, infos, |infos|);
      Bag(CreatedFrom(w, g.m, g.groups, 0, maxSize)) == Everything(n) <==>
        NoPartnerIsLinked(n, infos, |infos|) &&
        forall x :: 0 <= x < n && g.m[x] < 0 ==> NothingVanishes(w, g.groups[x], maxSize)
  {
    hide TakenAll, InnerPairs, NoPartnerIsLinked, Bag, CreatedFrom, Everything, NothingVanishes, Forest, GroupsOk;
    var g := TakenAll(n, infos, |infos|);
    TakenGroupsAreOk(n, infos, |infos|);
    LinkedAreAloneIff(n, infos, |infos|);
    MergingConserves(w, g.m, g.groups, g.s, maxSize);
  }
}

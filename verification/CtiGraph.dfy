/** The CTI relationship graph: assembly from the stores, breadth-first
    path-finding, and the k-hop neighbourhood of a focus node.

    A node id is a group prefix and a name ("actor:APT1"); the six prefixes are
    distinct, so the pair stands for the string. The empty string, which the path
    rebuild uses as its end marker, is `NoNode`. */
module CtiGraph {
  import opened Collections

  datatype Group = Actor | Malware | Technique | Sector | Report | Ioc
  datatype NodeId = NoNode | Id(group: Group, name: string)
  datatype Node = Node(id: NodeId, caption: string)
  datatype Link = Link(source: NodeId, target: NodeId, kind: string)

  datatype ActorRow = ActorRow(name: string, malware: seq<string>, ttps: seq<string>, sectors: seq<string>)
  datatype ReportRow = ReportRow(id: string, title: string, actors: seq<string>, malware: seq<string>, attackIds: seq<string>)
  // A NULL actor or report id reads as "" (the program tests truthiness only).
  datatype IocRow = IocRow(value: string, actor: string, reportId: string)

  // ---------------------------------------------------------------------
  // Assembly: what the stores describe
  // ---------------------------------------------------------------------

  function Fan(src: NodeId, group: Group, names: seq<string>, kind: string): seq<Link> {
    seq(|names|, i requires 0 <= i < |names| => Link(src, Id(group, names[i]), kind))
  }

  function ActorLinks(a: ActorRow): seq<Link> {
    var id := Id(Actor, a.name);
    Fan(id, Malware, a.malware, "uses") + Fan(id, Technique, a.ttps, "employs") + Fan(id, Sector, a.sectors, "targets")
  }

  function ReportLinks(r: ReportRow): seq<Link> {
    var id := Id(Report, r.id);
    Fan(id, Actor, r.actors, "attributed to") + Fan(id, Malware, r.malware, "documents")
    + Fan(id, Technique, r.attackIds, "documents")
  }

  function IocLinks(i: IocRow, actors: set<string>, reports: set<string>): seq<Link> {
    (if i.actor != "" && i.actor in actors then [Link(Id(Actor, i.actor), Id(Ioc, i.value), "indicates")] else [])
    + (if i.reportId != "" && i.reportId in reports
       then [Link(Id(Report, i.reportId), Id(Ioc, i.value), "reported")] else [])
  }

  function AllActorLinks(rows: seq<ActorRow>): seq<Link> {
    if rows == [] then [] else AllActorLinks(rows[..|rows| - 1]) + ActorLinks(rows[|rows| - 1])
  }

  function AllReportLinks(rows: seq<ReportRow>): seq<Link> {
    if rows == [] then [] else AllReportLinks(rows[..|rows| - 1]) + ReportLinks(rows[|rows| - 1])
  }

  function AllIocLinks(rows: seq<IocRow>, actors: set<string>, reports: set<string>): seq<Link> {
    if rows == [] then []
    else AllIocLinks(rows[..|rows| - 1], actors, reports) + IocLinks(rows[|rows| - 1], actors, reports)
  }

  /** An adversary is known when it has a row of its own or a report names it. */
  ghost function KnownActors(actors: seq<ActorRow>, reports: seq<ReportRow>): set<string> {
    (set a | a in actors :: a.name) + (set r, n | r in reports && n in r.actors :: n)
  }

  ghost function KnownReports(reports: seq<ReportRow>): set<string> {
    set r | r in reports :: r.id
  }

  ghost function GraphLinks(actors: seq<ActorRow>, reports: seq<ReportRow>, iocs: seq<IocRow>): seq<Link> {
    AllActorLinks(actors) + AllReportLinks(reports)
    + AllIocLinks(iocs, KnownActors(actors, reports), KnownReports(reports))
  }

  // What the rows say, link by link.

  ghost predicate Names(l: Link, group: Group, names: seq<string>, kind: string) {
    l.kind == kind && l.target.Id? && l.target.group == group && l.target.name in names
  }

  /** An adversary uses its malware, employs its techniques and targets its sectors. */
  ghost predicate ActorTells(a: ActorRow, l: Link) {
    l.source == Id(Actor, a.name)
    && (Names(l, Malware, a.malware, "uses") || Names(l, Technique, a.ttps, "employs") || Names(l, Sector, a.sectors, "targets"))
  }

  /** A report is attributed to its adversaries, and documents malware and techniques. */
  ghost predicate ReportTells(r: ReportRow, l: Link) {
    l.source == Id(Report, r.id)
    && (Names(l, Actor, r.actors, "attributed to") || Names(l, Malware, r.malware, "documents")
        || Names(l, Technique, r.attackIds, "documents"))
  }

  /** Its adversary indicates an indicator, when that has a row or a report names it, and
      its report reported it, when that has a row. */
  ghost predicate IocTells(i: IocRow, actors: seq<ActorRow>, reports: seq<ReportRow>, l: Link) {
    l.target == Id(Ioc, i.value)
    && (|| (l.kind == "indicates" && i.actor != "" && l.source == Id(Actor, i.actor)
            && ((exists a :: a in actors && a.name == i.actor) || (exists r :: r in reports && i.actor in r.actors)))
        || (l.kind == "reported" && i.reportId != "" && l.source == Id(Report, i.reportId)
            && exists r :: r in reports && r.id == i.reportId))
  }

  ghost predicate Told(actors: seq<ActorRow>, reports: seq<ReportRow>, iocs: seq<IocRow>, l: Link) {
    || (exists a :: a in actors && ActorTells(a, l))
    || (exists r :: r in reports && ReportTells(r, l))
    || (exists i :: i in iocs && IocTells(i, actors, reports, l))
  }

  lemma FanNames(src: NodeId, group: Group, names: seq<string>, kind: string, l: Link)
    ensures l in Fan(src, group, names, kind) <==> l.source == src && Names(l, group, names, kind)
  {
    var f := Fan(src, group, names, kind);
    if l.source == src && Names(l, group, names, kind) {
      var i :| 0 <= i < |names| && names[i] == l.target.name;
      assert f[i] == l;
    }
  }

  lemma ActorLinksTell(a: ActorRow, l: Link)
    ensures l in ActorLinks(a) <==> ActorTells(a, l)
  {
    hide Fan, Names;
    FanNames(Id(Actor, a.name), Malware, a.malware, "uses", l);
    FanNames(Id(Actor, a.name), Technique, a.ttps, "employs", l);
    FanNames(Id(Actor, a.name), Sector, a.sectors, "targets", l);
  }

  lemma ReportLinksTell(r: ReportRow, l: Link)
    ensures l in ReportLinks(r) <==> ReportTells(r, l)
  {
    hide Fan, Names;
    FanNames(Id(Report, r.id), Actor, r.actors, "attributed to", l);
    FanNames(Id(Report, r.id), Malware, r.malware, "documents", l);
    FanNames(Id(Report, r.id), Technique, r.attackIds, "documents", l);
  }

  lemma {:induction false} AllActorLinksTell(rows: seq<ActorRow>, l: Link)
    ensures l in AllActorLinks(rows) <==> exists a :: a in rows && ActorTells(a, l)
  {
    if rows != [] {
      hide ActorLinks, ActorTells;
      var init, a := rows[..|rows| - 1], rows[|rows| - 1];
      assert rows == init + [a];
      AllActorLinksTell(init, l);
      ActorLinksTell(a, l);
      assert forall x :: x in rows <==> x in init || x == a;
    }
  }

  lemma {:induction false} AllReportLinksTell(rows: seq<ReportRow>, l: Link)
    ensures l in AllReportLinks(rows) <==> exists r :: r in rows && ReportTells(r, l)
  {
    if rows != [] {
      hide ReportLinks, ReportTells;
      var init, r := rows[..|rows| - 1], rows[|rows| - 1];
      assert rows == init + [r];
      AllReportLinksTell(init, l);
      ReportLinksTell(r, l);
      assert forall x :: x in rows <==> x in init || x == r;
    }
  }

  lemma IocLinksTell(i: IocRow, actors: seq<ActorRow>, reports: seq<ReportRow>, l: Link)
    ensures l in IocLinks(i, KnownActors(actors, reports), KnownReports(reports)) <==> IocTells(i, actors, reports, l)
  {
  }

  lemma {:induction false} AllIocLinksTell(rows: seq<IocRow>, actors: seq<ActorRow>, reports: seq<ReportRow>, l: Link)
    ensures l in AllIocLinks(rows, KnownActors(actors, reports), KnownReports(reports))
       <==> exists i :: i in rows && IocTells(i, actors, reports, l)
  {
    if rows != [] {
      hide IocLinks, IocTells, KnownActors, KnownReports;
      var init, i := rows[..|rows| - 1], rows[|rows| - 1];
      assert rows == init + [i];
      AllIocLinksTell(init, actors, reports, l);
      IocLinksTell(i, actors, reports, l);
      assert forall x :: x in rows <==> x in init || x == i;
    }
  }

  /** The links of the graph are exactly those some row tells of. */
  lemma LinksAreTold(actors: seq<ActorRow>, reports: seq<ReportRow>, iocs: seq<IocRow>, l: Link)
    ensures l in GraphLinks(actors, reports, iocs) <==> Told(actors, reports, iocs, l)
  {
    hide AllActorLinks, AllReportLinks, AllIocLinks, KnownActors, KnownReports, ActorTells, ReportTells, IocTells;
    AllActorLinksTell(actors, l);
    AllReportLinksTell(reports, l);
    AllIocLinksTell(iocs, actors, reports, l);
  }

  /** How many links the rows of the adversaries and reports make: one for each name. */
  function NamesOf(actors: seq<ActorRow>, reports: seq<ReportRow>): nat {
    if actors != [] then
      var a := actors[|actors| - 1];
      NamesOf(actors[..|actors| - 1], reports) + |a.malware| + |a.ttps| + |a.sectors|
    else if reports != [] then
      var r := reports[|reports| - 1];
      NamesOf([], reports[..|reports| - 1]) + |r.actors| + |r.malware| + |r.attackIds|
    else 0
  }

  lemma {:induction false} OneLinkPerName(actors: seq<ActorRow>, reports: seq<ReportRow>)
    ensures |AllActorLinks(actors)| + |AllReportLinks(reports)| == NamesOf(actors, reports)
    decreases |actors|, |reports|
  {
    if actors != [] {
      OneLinkPerName(actors[..|actors| - 1], reports);
    } else if reports != [] {
      OneLinkPerName([], reports[..|reports| - 1]);
    }
  }

  lemma {:induction false} TwoLinksPerIoc(rows: seq<IocRow>, actors: set<string>, reports: set<string>)
    ensures |AllIocLinks(rows, actors, reports)| <= 2 * |rows|
  {
    if rows != [] { TwoLinksPerIoc(rows[..|rows| - 1], actors, reports); }
  }

  ghost predicate Touches(links: seq<Link>, v: NodeId) {
    exists l :: l in links && (l.source == v || l.target == v)
  }

  /** Rows become nodes even when nothing links to them. */
  ghost predicate HasRow(v: NodeId, actors: seq<ActorRow>, reports: seq<ReportRow>) {
    || (v.Id? && v.group == Actor && exists a :: a in actors && a.name == v.name)
    || (v.Id? && v.group == Report && exists r :: r in reports && r.id == v.name)
  }

  /** What a report is shown by: at most 60 characters of its title. */
  function Caption(title: string): string {
    var shown := if title == "" then "Intel report" else title;
    if |shown| > 60 then shown[..60] else shown
  }

  ghost predicate TitleIs(reports: seq<ReportRow>, id: string, caption: string) {
    exists k :: 0 <= k < |reports| && reports[k].id == id && (forall j :: 0 <= j < k ==> reports[j].id != id)
      && (if reports[k].title == "" then caption == "Intel report"
          else caption <= reports[k].title && |caption| == Min(60, |reports[k].title|))
  }

  lemma TitleOn(reports: seq<ReportRow>, r: ReportRow, id: string, caption: string)
    ensures TitleIs(reports, id, caption) ==> TitleIs(reports + [r], id, caption)
    ensures r.id == id && caption == Caption(r.title) && (forall x :: x in reports ==> x.id != id) ==> TitleIs(reports + [r], id, caption)
  {
    var more := reports + [r];
    if TitleIs(reports, id, caption) {
      var k :| 0 <= k < |reports| && reports[k].id == id && (forall j :: 0 <= j < k ==> reports[j].id != id)
               && (if reports[k].title == "" then caption == "Intel report"
                   else caption <= reports[k].title && |caption| == Min(60, |reports[k].title|));
      assert more[k] == reports[k] && forall j :: 0 <= j < k ==> more[j] == reports[j];
    }
    if r.id == id && caption == Caption(r.title) && forall x :: x in reports ==> x.id != id {
      assert more[|reports|] == r && forall j :: 0 <= j < |reports| ==> more[j] == reports[j] && reports[j] in reports;
    }
  }

  /** The two closures of the assembly step, with the dictionary and the list
      they update. */
  class GraphBuilder {
    var nodes: map<NodeId, Node>
    var links: seq<Link>

    /** A node is there for its own row or because a link ends at it. */
    ghost predicate Accounted(actors: seq<ActorRow>, reports: seq<ReportRow>)
      reads this
    {
      && (forall v :: v in nodes <==> HasRow(v, actors, reports) || Touches(links, v))
      && IdsMatch()
    }

    /** Every node is entered under its own id, and shown by its name unless it is a
        report. */
    ghost predicate IdsMatch()
      reads this`nodes
    {
      forall v :: v in nodes ==> nodes[v].id == v && (v.Id? && v.group != Report ==> nodes[v].caption == v.name)
    }

    /** A report is shown by the title of its first row. */
    ghost predicate Titled(reports: seq<ReportRow>)
      reads this`nodes
    {
      forall v :: v in nodes && v.Id? && v.group == Report ==> TitleIs(reports, v.name, nodes[v].caption)
    }

    constructor ()
      ensures nodes == map[] && links == []
    {
      nodes := map[];
      links := [];
    }

    method AddNode(nid: NodeId, caption: string)
      modifies this`nodes
      ensures old(IdsMatch()) && (nid.Id? && nid.group != Report ==> caption == nid.name) ==> IdsMatch()
      ensures nodes == if nid in old(nodes) then old(nodes) else old(nodes)[nid := Node(nid, caption)]
    {
      if nid !in nodes {
        nodes := nodes[nid := Node(nid, caption)];
      }
    }

    /** One `for` loop of the assembly: a link from `src` to every named node. */
    method LinkAll(src: NodeId, group: Group, names: seq<string>, kind: string)
      requires group != Report
      modifies this
      ensures old(IdsMatch()) ==> IdsMatch()
      ensures links == old(links) + Fan(src, group, names, kind)
      ensures forall v :: v in nodes <==> v in old(nodes) || (v.Id? && v.group == group && v.name in names)
      ensures forall v :: v in old(nodes) ==> nodes[v] == old(nodes)[v]
    {
      hide IdsMatch;
      for i := 0 to |names|
        invariant old(IdsMatch()) ==> IdsMatch()
        invariant forall v :: v in old(nodes) ==> v in nodes && nodes[v] == old(nodes)[v]
        invariant links == old(links) + Fan(src, group, names[..i], kind)
        invariant forall v :: v in nodes <==> v in old(nodes) || (v.Id? && v.group == group && v.name in names[..i])
      {
        AddNode(Id(group, names[i]), names[i]);
        links := links + [Link(src, Id(group, names[i]), kind)];
        assert names[..i + 1] == names[..i] + [names[i]];
        assert Fan(src, group, names[..i + 1], kind)
            == Fan(src, group, names[..i], kind) + [Link(src, Id(group, names[i]), kind)];
      }
      assert names[..|names|] == names;
    }

    method AddActor(a: ActorRow)
      modifies this
      ensures old(IdsMatch()) ==> IdsMatch()
      ensures links == old(links) + ActorLinks(a)
      ensures forall v :: v in nodes <==> v in old(nodes) || v == Id(Actor, a.name) || Touches(ActorLinks(a), v)
      ensures forall v :: v in old(nodes) ==> nodes[v] == old(nodes)[v]
      ensures forall v :: v in nodes && v.Id? && v.group == Report ==> v in old(nodes)
    {
      hide Touches, Fan, IdsMatch;
      var id := Id(Actor, a.name);
      AddNode(id, a.name);
      LinkAll(id, Malware, a.malware, "uses");
      LinkAll(id, Technique, a.ttps, "employs");
      LinkAll(id, Sector, a.sectors, "targets");
      ThreeFans(id, Malware, a.malware, "uses", Technique, a.ttps, "employs", Sector, a.sectors, "targets");
    }

    method AddReport(r: ReportRow)
      modifies this
      ensures old(IdsMatch()) ==> IdsMatch()
      ensures links == old(links) + ReportLinks(r)
      ensures forall v :: v in nodes <==> v in old(nodes) || v == Id(Report, r.id) || Touches(ReportLinks(r), v)
      ensures forall v :: v in old(nodes) ==> nodes[v] == old(nodes)[v]
      ensures forall v :: v in nodes && v !in old(nodes) && v.Id? && v.group == Report ==>
                v.name == r.id && nodes[v].caption == Caption(r.title)
    {
      hide Touches, Fan, IdsMatch;
      var id := Id(Report, r.id);
      AddNode(id, Caption(r.title));
      LinkAll(id, Actor, r.actors, "attributed to");
      LinkAll(id, Malware, r.malware, "documents");
      LinkAll(id, Technique, r.attackIds, "documents");
      ThreeFans(id, Actor, r.actors, "attributed to", Malware, r.malware, "documents",
                Technique, r.attackIds, "documents");
    }

    /** `report_nodes` holds exactly the report ids that have a node. */
    method AddIoc(i: IocRow, ghost actors: set<string>, ghost reports: set<string>)
      requires i.actor in actors <==> Id(Actor, i.actor) in nodes
      requires i.reportId in reports <==> Id(Report, i.reportId) in nodes
      modifies this
      ensures old(IdsMatch()) ==> IdsMatch()
      ensures links == old(links) + IocLinks(i, actors, reports)
      ensures forall v :: v in nodes <==> v in old(nodes) || Touches(IocLinks(i, actors, reports), v)
      ensures forall v :: v in old(nodes) ==> nodes[v] == old(nodes)[v]
      ensures forall v :: v in nodes && v.Id? && v.group == Report ==> v in old(nodes)
    {
      var hasActor := i.actor != "" && Id(Actor, i.actor) in nodes;
      var hasReport := i.reportId != "" && Id(Report, i.reportId) in nodes;
      IocEnds(i, actors, reports);
      if hasActor || hasReport {
        AddNode(Id(Ioc, i.value), i.value);
        if hasActor {
          links := links + [Link(Id(Actor, i.actor), Id(Ioc, i.value), "indicates")];
        }
        if hasReport {
          links := links + [Link(Id(Report, i.reportId), Id(Ioc, i.value), "reported")];
        }
      }
    }
  }

  lemma TouchesConcat(a: seq<Link>, b: seq<Link>, v: NodeId)
    ensures Touches(a + b, v) <==> Touches(a, v) || Touches(b, v)
  {
    assert forall l :: l in a + b <==> l in a || l in b;
  }

  lemma FanEnds(src: NodeId, group: Group, names: seq<string>, kind: string, v: NodeId)
    ensures Touches(Fan(src, group, names, kind), v)
       <==> (v == src && names != []) || (v.Id? && v.group == group && v.name in names)
  {
    var f := Fan(src, group, names, kind);
    if names != [] { assert f[0] in f; }
    if v.Id? && v.group == group && v.name in names {
      var i :| 0 <= i < |names| && names[i] == v.name;
      assert f[i] in f;
    }
  }

  lemma ThreeFans(src: NodeId, g1: Group, n1: seq<string>, k1: string, g2: Group, n2: seq<string>, k2: string,
                  g3: Group, n3: seq<string>, k3: string)
    ensures forall v :: (v == src || Touches(Fan(src, g1, n1, k1) + Fan(src, g2, n2, k2) + Fan(src, g3, n3, k3), v))
                   <==> (v == src || (v.Id? && ((v.group == g1 && v.name in n1) || (v.group == g2 && v.name in n2)
                                                || (v.group == g3 && v.name in n3))))
  {
    var a, b, c := Fan(src, g1, n1, k1), Fan(src, g2, n2, k2), Fan(src, g3, n3, k3);
    forall v ensures Touches(a + b + c, v) <==> Touches(a, v) || Touches(b, v) || Touches(c, v) {
      TouchesConcat(a, b, v);
      TouchesConcat(a + b, c, v);
    }
    forall v { FanEnds(src, g1, n1, k1, v); }
    forall v { FanEnds(src, g2, n2, k2, v); }
    forall v { FanEnds(src, g3, n3, k3, v); }
  }

  lemma IocEnds(i: IocRow, actors: set<string>, reports: set<string>)
    ensures var l := IocLinks(i, actors, reports);
            forall v :: Touches(l, v) <==>
              || (l != [] && v == Id(Ioc, i.value))
              || (i.actor != "" && i.actor in actors && v == Id(Actor, i.actor))
              || (i.reportId != "" && i.reportId in reports && v == Id(Report, i.reportId))
  {
    var l := IocLinks(i, actors, reports);
    if l != [] { assert l[0] in l && l[|l| - 1] in l; }
  }

  method AddActors(g: GraphBuilder, actors: seq<ActorRow>)
    requires g.nodes == map[] && g.links == []
    modifies g
    ensures g.links == AllActorLinks(actors)
    ensures g.Accounted(actors, []) && g.Titled([])
  {
    hide Touches, ActorLinks, HasRow, TitleIs;
    NothingYet();
    for k := 0 to |actors|
      invariant g.links == AllActorLinks(actors[..k]) && g.Titled([])
      invariant g.Accounted(actors[..k], [])
    {
      ghost var before := g.links;
      g.AddActor(actors[k]);
      assert actors[..k + 1] == actors[..k] + [actors[k]];
      assert actors[..k + 1][..k] == actors[..k];
      forall v { TouchesConcat(before, ActorLinks(actors[k]), v); }
      forall v { HasRowActor(v, actors[..k], actors[k]); }
    }
    assert actors[..|actors|] == actors;
  }

  lemma NothingYet()
    ensures forall v :: !Touches([], v) && !HasRow(v, [], [])
  {
  }

  lemma HasRowActor(v: NodeId, actors: seq<ActorRow>, a: ActorRow)
    ensures HasRow(v, actors + [a], []) <==> HasRow(v, actors, []) || v == Id(Actor, a.name)
  {
    assert forall x :: x in actors + [a] <==> x in actors || x == a;
  }

  lemma HasRowReport(v: NodeId, actors: seq<ActorRow>, reports: seq<ReportRow>, r: ReportRow)
    ensures HasRow(v, actors, reports + [r]) <==> HasRow(v, actors, reports) || v == Id(Report, r.id)
  {
    assert forall x :: x in reports + [r] <==> x in reports || x == r;
  }

  method AddReports(g: GraphBuilder, ghost actors: seq<ActorRow>, reports: seq<ReportRow>)
    requires g.links == AllActorLinks(actors)
    requires g.Accounted(actors, []) && g.Titled([])
    modifies g
    ensures g.links == AllActorLinks(actors) + AllReportLinks(reports)
    ensures g.Accounted(actors, reports) && g.Titled(reports)
  {
    hide Touches, ReportLinks, HasRow, AllActorLinks, TitleIs, Caption;
    for k := 0 to |reports|
      invariant g.links == AllActorLinks(actors) + AllReportLinks(reports[..k]) && g.Titled(reports[..k])
      invariant g.Accounted(actors, reports[..k])
    {
      ghost var before, shown := g.links, g.nodes;
      g.AddReport(reports[k]);
      assert reports[..k + 1] == reports[..k] + [reports[k]];
      assert reports[..k + 1][..k] == reports[..k];
      forall v { TouchesConcat(before, ReportLinks(reports[k]), v); }
      forall v { HasRowReport(v, actors, reports[..k], reports[k]); }
      forall v | v in g.nodes && v.Id? && v.group == Report ensures TitleIs(reports[..k + 1], v.name, g.nodes[v].caption) {
        TitleOn(reports[..k], reports[k], v.name, g.nodes[v].caption);
        if v !in shown { NoRowYet(v, actors, reports[..k]); }
      }
    }
    assert reports[..|reports|] == reports;
  }

  lemma NoRowYet(v: NodeId, actors: seq<ActorRow>, reports: seq<ReportRow>)
    requires v.Id? && v.group == Report && !HasRow(v, actors, reports)
    ensures forall r :: r in reports ==> r.id != v.name
  {
  }

  /** No actor or malware fan reaches an adversary the stores do not know. */
  lemma {:induction false} ActorLinksReach(v: NodeId, rows: seq<ActorRow>)
    requires Touches(AllActorLinks(rows), v)
    ensures v.Id? && v.group != Report && (v.group == Actor ==> exists a :: a in rows && a.name == v.name)
  {
    var init, a := rows[..|rows| - 1], rows[|rows| - 1];
    TouchesConcat(AllActorLinks(init), ActorLinks(a), v);
    if Touches(AllActorLinks(init), v) {
      ActorLinksReach(v, init);
    } else {
      ThreeFans(Id(Actor, a.name), Malware, a.malware, "uses", Technique, a.ttps, "employs", Sector, a.sectors, "targets");
    }
  }

  lemma {:induction false} ReportLinksReach(v: NodeId, rows: seq<ReportRow>)
    ensures Touches(AllReportLinks(rows), v) ==>
              && v.Id?
              && (v.group == Actor ==> exists r :: r in rows && v.name in r.actors)
              && (v.group == Report ==> exists r :: r in rows && r.id == v.name)
    ensures v.Id? && v.group == Actor && (exists r :: r in rows && v.name in r.actors) ==> Touches(AllReportLinks(rows), v)
  {
    if rows != [] {
      var init, r := rows[..|rows| - 1], rows[|rows| - 1];
      assert rows == init + [r];
      TouchesConcat(AllReportLinks(init), ReportLinks(r), v);
      ReportLinksReach(v, init);
      ThreeFans(Id(Report, r.id), Actor, r.actors, "attributed to", Malware, r.malware, "documents",
                Technique, r.attackIds, "documents");
    }
  }

  lemma {:induction false} IocLinksReach(v: NodeId, rows: seq<IocRow>, actors: set<string>, reports: set<string>)
    requires Touches(AllIocLinks(rows, actors, reports), v)
    ensures v.Id? && (v.group == Actor ==> v.name in actors) && (v.group == Report ==> v.name in reports)
  {
    var init, i := rows[..|rows| - 1], rows[|rows| - 1];
    TouchesConcat(AllIocLinks(init, actors, reports), IocLinks(i, actors, reports), v);
    if Touches(AllIocLinks(init, actors, reports), v) {
      IocLinksReach(v, init, actors, reports);
    } else {
      IocEnds(i, actors, reports);
    }
  }

  /** Which ids the finished graph has: never the empty one, and an adversary or
      a report exactly when the stores know it. */
  lemma AccountedFor(v: NodeId, actors: seq<ActorRow>, reports: seq<ReportRow>, iocs: seq<IocRow>)
    ensures var there := HasRow(v, actors, reports) || Touches(GraphLinks(actors, reports, iocs), v);
            && (there ==> v.Id?)
            && (v.Id? && v.group == Actor ==> (there <==> v.name in KnownActors(actors, reports)))
            && (v.Id? && v.group == Report ==> (there <==> v.name in KnownReports(reports)))
  {
    var a, r := AllActorLinks(actors), AllReportLinks(reports);
    var i := AllIocLinks(iocs, KnownActors(actors, reports), KnownReports(reports));
    TouchesConcat(a, r, v);
    TouchesConcat(a + r, i, v);
    if Touches(a, v) { ActorLinksReach(v, actors); }
    ReportLinksReach(v, reports);
    if Touches(i, v) { IocLinksReach(v, iocs, KnownActors(actors, reports), KnownReports(reports)); }
  }

  method AddIocs(g: GraphBuilder, ghost actors: seq<ActorRow>, ghost reports: seq<ReportRow>, iocs: seq<IocRow>)
    requires g.links == AllActorLinks(actors) + AllReportLinks(reports)
    requires g.Accounted(actors, reports) && g.Titled(reports)
    modifies g
    ensures g.links == GraphLinks(actors, reports, iocs)
    ensures g.Accounted(actors, reports) && g.Titled(reports)
  {
    hide TitleIs, Touches, HasRow, IocLinks, KnownActors, KnownReports, AllActorLinks, AllReportLinks;
    ghost var known, docs := KnownActors(actors, reports), KnownReports(reports);
    for k := 0 to |iocs|
      invariant g.links == GraphLinks(actors, reports, iocs[..k])
      invariant g.Accounted(actors, reports) && g.Titled(reports)
    {
      ghost var before := g.links;
      AccountedFor(Id(Actor, iocs[k].actor), actors, reports, iocs[..k]);
      AccountedFor(Id(Report, iocs[k].reportId), actors, reports, iocs[..k]);
      g.AddIoc(iocs[k], known, docs);
      assert iocs[..k + 1][..k] == iocs[..k];
      forall v { TouchesConcat(before, IocLinks(iocs[k], known, docs), v); }
    }
    assert iocs[..|iocs|] == iocs;
  }

  /** Assemble the whole graph. Its links are exactly the ones the stores
      describe, its nodes exactly the rows and the link ends (so every link joins
      two nodes), and the empty id is not among them. */
  method FullGraph(actors: seq<ActorRow>, reports: seq<ReportRow>, iocs: seq<IocRow>)
    returns (nodes: map<NodeId, Node>, links: seq<Link>)
    ensures links == GraphLinks(actors, reports, iocs)
    ensures forall l :: l in links <==> Told(actors, reports, iocs, l)
    ensures NamesOf(actors, reports) <= |links| <= NamesOf(actors, reports) + 2 * |iocs|
    ensures forall v :: v in nodes <==> HasRow(v, actors, reports) || Touches(links, v)
    ensures forall v :: v in nodes ==> nodes[v].id == v
    ensures forall v :: v in nodes && v.Id? ==>
              if v.group == Report then TitleIs(reports, v.name, nodes[v].caption) else nodes[v].caption == v.name
    ensures Closed(nodes, links)
  {
    hide TitleIs, Told, Touches, HasRow, AllActorLinks, AllReportLinks, AllIocLinks, NamesOf;
    var g := new GraphBuilder();
    AddActors(g, actors);
    AddReports(g, actors, reports);
    AddIocs(g, actors, reports, iocs);
    nodes, links := g.nodes, g.links;
    forall l ensures l in links <==> Told(actors, reports, iocs, l) { LinksAreTold(actors, reports, iocs, l); }
    OneLinkPerName(actors, reports);
    TwoLinksPerIoc(iocs, KnownActors(actors, reports), KnownReports(reports));
    AccountedFor(NoNode, actors, reports, iocs);
    forall l | l in links ensures l.source in nodes && l.target in nodes {
      EndsTouch(links, l);
    }
  }

  lemma EndsTouch(links: seq<Link>, l: Link)
    requires l in links
    ensures Touches(links, l.source) && Touches(links, l.target)
  {
  }

  ghost predicate Closed(nodes: map<NodeId, Node>, links: seq<Link>) {
    && NoNode !in nodes
    && forall l :: l in links ==> l.source in nodes && l.target in nodes
  }

  // ---------------------------------------------------------------------
  // Paths
  // ---------------------------------------------------------------------

  predicate Joins(l: Link, u: NodeId, v: NodeId) {
    (l.source == u && l.target == v) || (l.source == v && l.target == u)
  }

  ghost predicate Linked(links: seq<Link>, u: NodeId, v: NodeId) {
    exists l :: l in links && Joins(l, u, v)
  }

  ghost predicate Hop(links: seq<Link>, p: seq<NodeId>, i: int) {
    0 <= i < |p| - 1 ==> Linked(links, p[i], p[i + 1])
  }

  ghost predicate Walk(links: seq<Link>, p: seq<NodeId>, u: NodeId, v: NodeId) {
    && p != [] && p[0] == u && p[|p| - 1] == v
    && forall i :: Hop(links, p, i)
  }

  /** The number of links of a walk. */
  function Hops(p: seq<NodeId>): int { |p| - 1 }

  ghost predicate Connected(links: seq<Link>, u: NodeId, v: NodeId) {
    exists p :: Walk(links, p, u, v)
  }

  ghost predicate Shortest(links: seq<Link>, p: seq<NodeId>, u: NodeId, v: NodeId) {
    && Walk(links, p, u, v)
    && forall q :: Walk(links, q, u, v) ==> Hops(p) <= Hops(q)
  }

  function Get(adj: map<NodeId, set<NodeId>>, u: NodeId): set<NodeId> {
    if u in adj then adj[u] else {}
  }

  ghost predicate IsAdjacency(adj: map<NodeId, set<NodeId>>, links: seq<Link>) {
    forall u, v :: v in Get(adj, u) <==> Linked(links, u, v)
  }

  lemma LinkedSnoc(links: seq<Link>, l: Link, u: NodeId, v: NodeId)
    ensures Linked(links + [l], u, v) <==> Linked(links, u, v) || Joins(l, u, v)
  {
    assert forall x :: x in links + [l] <==> x in links || x == l;
  }

  method Adjacency(links: seq<Link>) returns (adj: map<NodeId, set<NodeId>>)
    ensures IsAdjacency(adj, links)
  {
    adj := map[];
    for k := 0 to |links|
      invariant IsAdjacency(adj, links[..k])
    {
      var l := links[k];
      adj := adj[l.source := Get(adj, l.source) + {l.target}];
      adj := adj[l.target := Get(adj, l.target) + {l.source}];
      assert links[..k + 1] == links[..k] + [l];
      forall u, v { LinkedSnoc(links[..k], l, u, v); }
    }
    assert links[..|links|] == links;
  }

  // ---------------------------------------------------------------------
  // Breadth-first search
  // ---------------------------------------------------------------------

  ghost predicate TreeEdge(links: seq<Link>, src: NodeId, prev: map<NodeId, NodeId>, dist: map<NodeId, nat>, v: NodeId) {
    v in prev && v in dist && v != src ==>
      prev[v] in prev && prev[v] in dist && Linked(links, prev[v], v) && dist[v] == dist[prev[v]] + 1
  }

  /** `prev` is a tree rooted at src whose edges are links, and `dist` counts the
      edges up to the root. */
  ghost predicate Tree(links: seq<Link>, src: NodeId, prev: map<NodeId, NodeId>, dist: map<NodeId, nat>) {
    && prev.Keys == dist.Keys
    && NoNode !in prev
    && src in prev && prev[src] == NoNode && dist[src] == 0
    && forall v :: TreeEdge(links, src, prev, dist, v)
  }

  /** The queue holds each discovered, unexpanded node once, nearest first, and
      spans at most two consecutive distances. */
  ghost predicate Frontier(q: seq<NodeId>, dist: map<NodeId, nat>) {
    && (forall i :: 0 <= i < |q| ==> q[i] in dist)
    && (forall i, j :: 0 <= i < j < |q| ==> q[i] != q[j])
    && (forall i, j :: 0 <= i < j < |q| ==> dist[q[i]] <= dist[q[j]])
    && (forall i :: 0 <= i < |q| ==> dist[q[i]] <= dist[q[0]] + 1)
  }

  /** Every expanded node has had all its neighbours discovered, one hop further
      at most, and is no further than the head of the queue. */
  ghost predicate Expanded(links: seq<Link>, done: set<NodeId>, q: seq<NodeId>, dist: map<NodeId, nat>) {
    && (forall u :: u in done ==> u in dist && u !in q)
    && (forall u :: u in dist ==> u in done || u in q)
    && (forall u, v :: u in done && Linked(links, u, v) ==> v in dist && dist[v] <= dist[u] + 1)
    && (q != [] ==> q[0] in dist && forall u :: u in done ==> dist[u] <= dist[q[0]])
  }

  /** A walk no longer than the head of the queue ends at a discovered node, no
      further away than the walk is long: the reason breadth-first is shortest. */
  lemma {:induction false} WalkBound(links: seq<Link>, src: NodeId, done: set<NodeId>, q: seq<NodeId>, dist: map<NodeId, nat>,
                  p: seq<NodeId>, v: NodeId)
    requires src in dist && dist[src] == 0
    requires Expanded(links, done, q, dist)
    requires Frontier(q, dist)
    requires Walk(links, p, src, v)
    requires q != [] ==> Hops(p) <= dist[q[0]]
    ensures v in dist && dist[v] <= Hops(p)
  {
    if |p| > 1 {
      var u, init := p[|p| - 2], p[..|p| - 1];
      forall i ensures Hop(links, init, i) { assert Hop(links, p, i); }
      assert Hop(links, p, |p| - 2);
      WalkBound(links, src, done, q, dist, init, u);
      forall i | 0 <= i < |q| ensures q[i] != u {
        assert dist[q[0]] <= dist[q[i]];
      }
      assert Linked(links, u, v);
    }
  }

  /** One expansion: every neighbour of `cur` not yet in `prev` is entered and
      queued, in whatever order the set yields them. */
  method Discover(neighbours: set<NodeId>, cur: NodeId, prev0: map<NodeId, NodeId>, q0: seq<NodeId>)
    returns (prev: map<NodeId, NodeId>, q: seq<NodeId>, ghost added: seq<NodeId>)
    ensures q == q0 + added
    ensures prev.Keys == prev0.Keys + neighbours
    ensures forall v :: v in prev0 ==> prev[v] == prev0[v]
    ensures forall v :: v in added <==> v in prev && v !in prev0
    ensures forall v :: v in added ==> v in neighbours && prev[v] == cur
    ensures forall i, j :: 0 <= i < j < |added| ==> added[i] != added[j]
  {
    prev, q := prev0, q0;
    var todo := neighbours;
    added := [];
    while todo != {}
      invariant todo <= neighbours
      invariant q == q0 + added
      invariant prev.Keys == prev0.Keys + (neighbours - todo)
      invariant forall v :: v in prev0 ==> prev[v] == prev0[v]
      invariant forall v :: v in added <==> v in prev && v !in prev0
      invariant forall v :: v in added ==> v in neighbours && prev[v] == cur
      invariant forall i, j :: 0 <= i < j < |added| ==> added[i] != added[j]
      decreases todo
    {
      var nb :| nb in todo;
      todo := todo - {nb};
      if nb !in prev {
        prev := prev[nb := cur];
        q := q + [nb];
        added := added + [nb];
      }
    }
  }

  /** One expansion keeps what the loop keeps. */
  lemma Expand(links: seq<Link>, src: NodeId, q0: seq<NodeId>, added: seq<NodeId>, done: set<NodeId>,
               prev0: map<NodeId, NodeId>, dist0: map<NodeId, nat>, prev: map<NodeId, NodeId>, neighbours: set<NodeId>)
    returns (dist: map<NodeId, nat>)
    requires q0 != [] && Tree(links, src, prev0, dist0) && Frontier(q0, dist0) && Expanded(links, done, q0, dist0)
    requires NoNode !in neighbours && forall v :: v in neighbours <==> Linked(links, q0[0], v)
    requires Discovered(q0[0], neighbours, prev0, prev, added)
    ensures Tree(links, src, prev, dist)
    ensures Frontier(q0[1..] + added, dist)
    ensures Expanded(links, done + {q0[0]}, q0[1..] + added, dist)
  {
    var cur := q0[0];
    assert [cur] + q0[1..] == q0;
    dist := map v | v in prev :: if v in dist0 then dist0[v] else dist0[cur] + 1;
    ExpandKeepsTree(links, src, cur, prev0, dist0, prev, dist);
    ExpandKeepsFrontier(cur, q0[1..], added, dist0, dist);
    ExpandFinishes(links, done, cur, q0[1..], added, dist0, dist);
  }

  /** What one expansion enters: the neighbours not known yet, each once, with their
      predecessor. */
  ghost predicate Discovered(cur: NodeId, neighbours: set<NodeId>, prev0: map<NodeId, NodeId>, prev: map<NodeId, NodeId>,
                             added: seq<NodeId>) {
    && prev.Keys == prev0.Keys + neighbours
    && (forall v :: v in prev0 ==> prev[v] == prev0[v])
    && (forall v :: v in added <==> v in prev && v !in prev0)
    && (forall v :: v in added ==> v in neighbours && prev[v] == cur)
    && (forall i, j :: 0 <= i < j < |added| ==> added[i] != added[j])
  }

  lemma ExpandKeepsTree(links: seq<Link>, src: NodeId, cur: NodeId, prev0: map<NodeId, NodeId>, dist0: map<NodeId, nat>,
                        prev: map<NodeId, NodeId>, dist: map<NodeId, nat>)
    requires Tree(links, src, prev0, dist0) && cur in prev0
    requires prev0.Keys <= prev.Keys && forall v :: v in prev0 ==> prev[v] == prev0[v]
    requires forall v :: v in prev && v !in prev0 ==> v != NoNode && prev[v] == cur && Linked(links, cur, v)
    requires dist == map v | v in prev :: if v in dist0 then dist0[v] else dist0[cur] + 1
    ensures Tree(links, src, prev, dist)
  {
    forall v ensures TreeEdge(links, src, prev, dist, v) {
      assert TreeEdge(links, src, prev0, dist0, v);
    }
  }

  lemma ExpandKeepsFrontier(cur: NodeId, q0: seq<NodeId>, added: seq<NodeId>, dist0: map<NodeId, nat>, dist: map<NodeId, nat>)
    requires Frontier([cur] + q0, dist0)
    requires dist0.Keys <= dist.Keys && forall v :: v in dist0 ==> dist[v] == dist0[v]
    requires cur in dist0 && forall v :: v in added ==> v !in dist0 && v in dist && dist[v] == dist0[cur] + 1
    requires forall i, j :: 0 <= i < j < |added| ==> added[i] != added[j]
    ensures Frontier(q0 + added, dist)
  {
    var q, near := q0 + added, dist0[cur];
    forall i | 0 <= i < |q0| ensures q0[i] in dist0 && near <= dist0[q0[i]] <= near + 1 {
      assert ([cur] + q0)[0] == cur && ([cur] + q0)[i + 1] == q0[i];
    }
    forall i, j | 0 <= i < j < |q0| ensures q0[i] != q0[j] && dist0[q0[i]] <= dist0[q0[j]] {
      assert ([cur] + q0)[i + 1] == q0[i] && ([cur] + q0)[j + 1] == q0[j];
    }
    forall i | 0 <= i < |q| ensures q[i] in dist && near <= dist[q[i]] <= near + 1 {
      if i >= |q0| { assert q[i] == added[i - |q0|] && q[i] in added; }
    }
    forall i, j | 0 <= i < j < |q| ensures q[i] != q[j] && dist[q[i]] <= dist[q[j]] {
      if j < |q0| {
        assert q[i] == q0[i] && q[j] == q0[j];
      } else {
        assert q[j] == added[j - |q0|] && q[j] in added;
        if i >= |q0| { assert q[i] == added[i - |q0|]; }
      }
    }
  }

  lemma ExpandFinishes(links: seq<Link>, done: set<NodeId>, cur: NodeId, q0: seq<NodeId>, added: seq<NodeId>,
                       dist0: map<NodeId, nat>, dist: map<NodeId, nat>)
    requires Expanded(links, done, [cur] + q0, dist0)
    requires Frontier([cur] + q0, dist0)
    requires cur in dist0 && forall v :: v in dist <==> v in dist0 || v in added
    requires forall v :: v in dist0 ==> dist[v] == dist0[v]
    requires forall v :: v in added ==> v !in dist0 && dist[v] == dist0[cur] + 1
    requires forall v :: Linked(links, cur, v) ==> v in dist
    ensures Expanded(links, done + {cur}, q0 + added, dist)
  {
    var pre, q := [cur] + q0, q0 + added;
    assert pre[0] == cur;
    assert forall v :: v in q <==> v in q0 || v in added;
    assert forall v :: v in pre <==> v == cur || v in q0;
    forall i | 0 <= i < |q0| ensures q0[i] != cur && dist0[cur] <= dist0[q0[i]] <= dist0[cur] + 1 {
      assert pre[0] != pre[i + 1] && dist0[pre[0]] <= dist0[pre[i + 1]] <= dist0[pre[0]] + 1;
    }
    if q != [] { assert q[0] in q; }
  }

  /** What the breadth-first loop keeps. */
  ghost predicate Searching(nodes: map<NodeId, Node>, links: seq<Link>, src: NodeId, prev: map<NodeId, NodeId>,
                            q: seq<NodeId>, dist: map<NodeId, nat>, done: set<NodeId>) {
    && prev.Keys <= nodes.Keys
    && Tree(links, src, prev, dist)
    && Frontier(q, dist)
    && Expanded(links, done, q, dist)
  }

  /** One round of the loop: pop the head and expand it. */
  method Round(nodes: map<NodeId, Node>, links: seq<Link>, adj: map<NodeId, set<NodeId>>, src: NodeId,
               prev0: map<NodeId, NodeId>, q0: seq<NodeId>, ghost dist0: map<NodeId, nat>, ghost done0: set<NodeId>)
    returns (prev: map<NodeId, NodeId>, q: seq<NodeId>, ghost dist: map<NodeId, nat>, ghost done: set<NodeId>)
    requires Closed(nodes, links) && IsAdjacency(adj, links)
    requires q0 != [] && Searching(nodes, links, src, prev0, q0, dist0, done0)
    ensures Searching(nodes, links, src, prev, q, dist, done)
    ensures nodes.Keys - prev.Keys < nodes.Keys - prev0.Keys
         || (nodes.Keys - prev.Keys == nodes.Keys - prev0.Keys && |q| < |q0|)
  {
    hide Tree, Frontier, Expanded, Linked, IsAdjacency;
    var cur := q0[0];
    NeighboursInside(nodes, links, adj, cur);
    ghost var added;
    prev, q, added := Discover(Get(adj, cur), cur, prev0, q0[1..]);
    dist := Expand(links, src, q0, added, done0, prev0, dist0, prev, Get(adj, cur));
    done := done0 + {cur};
    assert added != [] ==> added[0] in nodes.Keys - prev0.Keys && added[0] !in nodes.Keys - prev.Keys;
  }

  /** The breadth-first loop, stopped as soon as dst is popped. */
  method Search(nodes: map<NodeId, Node>, links: seq<Link>, src: NodeId, dst: NodeId)
    returns (prev: map<NodeId, NodeId>, ghost dist: map<NodeId, nat>)
    requires Closed(nodes, links)
    requires src in nodes
    ensures Tree(links, src, prev, dist)
    ensures dst in prev ==> forall p :: Walk(links, p, src, dst) ==> dist[dst] <= Hops(p)
    ensures dst !in prev ==> !Connected(links, src, dst)
  {
    var adj := Adjacency(links);
    prev := map[src := NoNode];
    dist := map[src := 0];
    var q := [src];
    ghost var done: set<NodeId> := {};
    while q != []
      invariant Searching(nodes, links, src, prev, q, dist, done)
      decreases nodes.Keys - prev.Keys, |q|
    {
      if q[0] == dst {
        ShortestAtHead(links, src, done, q, dist);
        return;
      }
      prev, q, dist, done := Round(nodes, links, adj, src, prev, q, dist, done);
    }
    AllReached(links, src, done, dist);
  }

  lemma NeighboursInside(nodes: map<NodeId, Node>, links: seq<Link>, adj: map<NodeId, set<NodeId>>, cur: NodeId)
    requires Closed(nodes, links) && IsAdjacency(adj, links)
    ensures Get(adj, cur) <= nodes.Keys && NoNode !in Get(adj, cur)
    ensures forall v :: v in Get(adj, cur) <==> Linked(links, cur, v)
  {
    forall v | v in Get(adj, cur) ensures v in nodes {
      assert Linked(links, cur, v);
    }
  }

  lemma ShortestAtHead(links: seq<Link>, src: NodeId, done: set<NodeId>, q: seq<NodeId>, dist: map<NodeId, nat>)
    requires src in dist && dist[src] == 0
    requires q != [] && Frontier(q, dist) && Expanded(links, done, q, dist)
    ensures forall p :: Walk(links, p, src, q[0]) ==> dist[q[0]] <= Hops(p)
  {
    forall p | Walk(links, p, src, q[0]) ensures dist[q[0]] <= Hops(p) {
      if Hops(p) < dist[q[0]] { WalkBound(links, src, done, q, dist, p, q[0]); }
    }
  }

  lemma AllReached(links: seq<Link>, src: NodeId, done: set<NodeId>, dist: map<NodeId, nat>)
    requires src in dist && dist[src] == 0
    requires Expanded(links, done, [], dist)
    ensures forall p, v :: Walk(links, p, src, v) ==> v in dist && dist[v] <= Hops(p)
  {
    forall p, v | Walk(links, p, src, v) ensures v in dist && dist[v] <= Hops(p) {
      WalkBound(links, src, done, [], dist, p, v);
    }
  }

  /** The chain is read off `prev` from the far end, until the empty id. */
  method Rebuild(links: seq<Link>, src: NodeId, dst: NodeId, prev: map<NodeId, NodeId>, ghost dist: map<NodeId, nat>)
    returns (chain: seq<NodeId>)
    requires Tree(links, src, prev, dist)
    requires dst in prev
    ensures Walk(links, chain, src, dst)
    ensures Hops(chain) == dist[dst]
  {
    chain := [];
    var cur := dst;
    while cur != NoNode
      invariant cur != NoNode ==> cur in prev && |chain| + dist[cur] == dist[dst]
      invariant cur == NoNode ==> chain != [] && chain[0] == src && Hops(chain) == dist[dst]
      invariant chain == [] ==> cur == dst
      invariant chain != [] ==> chain[|chain| - 1] == dst && (cur != NoNode ==> Linked(links, cur, chain[0]))
      invariant forall i :: Hop(links, chain, i)
      decreases if cur == NoNode then 0 else dist[cur] + 1
    {
      assert TreeEdge(links, src, prev, dist, cur);
      forall i ensures Hop(links, [cur] + chain, i) { assert Hop(links, chain, i - 1); }
      chain := [cur] + chain;
      cur := prev[cur];
    }
  }

  datatype Pair = Pair(tail: NodeId, head: NodeId)
  type Kinds = map<Pair, string>

  ghost predicate Leads(links: seq<Link>, k: int, u: NodeId, v: NodeId) {
    0 <= k < |links| && links[k].source == u && links[k].target == v
  }

  ghost predicate NoLink(links: seq<Link>, u: NodeId, v: NodeId) {
    forall k :: !Leads(links, k, u, v)
  }

  /** The kind of the last stored link from u to v. */
  ghost predicate LastLink(links: seq<Link>, u: NodeId, v: NodeId, kind: string) {
    exists k :: Leads(links, k, u, v) && links[k].kind == kind && forall j :: j > k ==> !Leads(links, j, u, v)
  }

  /** What a hop from u to v is labelled with: the last link stored the other way round,
      and only without one the last stored this way. */
  ghost predicate Shows(links: seq<Link>, u: NodeId, v: NodeId, kind: string) {
    LastLink(links, v, u, kind) || (NoLink(links, v, u) && LastLink(links, u, v, kind))
  }

  lemma LastSnoc(links: seq<Link>, l: Link, u: NodeId, v: NodeId, kind: string)
    ensures NoLink(links + [l], u, v) <==> NoLink(links, u, v) && (l.source != u || l.target != v)
    ensures LastLink(links + [l], u, v, kind) <==> if l.source == u && l.target == v then kind == l.kind else LastLink(links, u, v, kind)
  {
    var more, n := links + [l], |links|;
    forall k ensures Leads(more, k, u, v) <==> Leads(links, k, u, v) || (k == n && l.source == u && l.target == v) { }
    hide Leads;
    if l.source == u && l.target == v {
      assert Leads(more, n, u, v) && more[n] == l;
      assert forall j :: j > n ==> !Leads(more, j, u, v) by { assert forall j :: j > n ==> !Leads(links, j, u, v) by { Within(links, u, v); } }
    } else {
      Within(links, u, v);
      assert forall k :: Leads(links, k, u, v) ==> 0 <= k < n && more[k] == links[k];
    }
  }

  lemma Within(links: seq<Link>, u: NodeId, v: NodeId)
    ensures forall k :: Leads(links, k, u, v) ==> 0 <= k < |links|
  {
  }

  lemma LinkedIff(links: seq<Link>, u: NodeId, v: NodeId)
    ensures Linked(links, u, v) <==> !NoLink(links, u, v) || !NoLink(links, v, u)
  {
    if Linked(links, u, v) {
      var l :| l in links && Joins(l, u, v);
      var k :| 0 <= k < |links| && links[k] == l;
      assert Leads(links, k, u, v) || Leads(links, k, v, u);
    }
    if k :| Leads(links, k, u, v) || Leads(links, k, v, u) {
      assert links[k] in links && Joins(links[k], u, v);
    }
  }

  /** The entry of a hop once the links were read forwards, and the first of them
      backwards. */
  ghost predicate Entry(links: seq<Link>, back: seq<Link>, kinds: Kinds, u: NodeId, v: NodeId) {
    && (Pair(u, v) in kinds <==> !NoLink(links, u, v) || !NoLink(back, v, u))
    && (Pair(u, v) in kinds ==>
          var kind := kinds[Pair(u, v)]; LastLink(back, v, u, kind) || (NoLink(back, v, u) && LastLink(links, u, v, kind)))
  }

  ghost predicate Entries(links: seq<Link>, back: seq<Link>, kinds: Kinds) {
    forall u, v {:trigger Pair(u, v) in kinds} :: Entry(links, back, kinds, u, v)
  }

  lemma EntryForwards(links: seq<Link>, l: Link, kinds: Kinds, u: NodeId, v: NodeId)
    requires Entry(links, [], kinds, u, v)
    ensures Entry(links + [l], [], kinds[Pair(l.source, l.target) := l.kind], u, v)
  {
    hide NoLink, LastLink;
    var after := kinds[Pair(l.source, l.target) := l.kind];
    NothingBack(v, u);
    if Pair(u, v) in after { LastSnoc(links, l, u, v, after[Pair(u, v)]); } else { LastSnoc(links, l, u, v, ""); }
  }

  lemma NothingBack(u: NodeId, v: NodeId)
    ensures NoLink([], u, v) && forall kind :: !LastLink([], u, v, kind)
  {
  }

  lemma EntryBackwards(links: seq<Link>, back: seq<Link>, l: Link, kinds: Kinds, u: NodeId, v: NodeId)
    requires Entry(links, back, kinds, u, v)
    ensures Entry(links, back + [l], kinds[Pair(l.target, l.source) := l.kind], u, v)
  {
    hide NoLink, LastLink;
    var after := kinds[Pair(l.target, l.source) := l.kind];
    if Pair(u, v) in after { LastSnoc(back, l, v, u, after[Pair(u, v)]); } else { LastSnoc(back, l, v, u, ""); }
  }

  /** The dictionary built from the links as stored ... */
  method ForwardKinds(links: seq<Link>) returns (kinds: Kinds)
    ensures Entries(links, [], kinds)
  {
    hide Entry;
    kinds := map[];
    forall u, v ensures Entry([], [], kinds, u, v) { NoEntry(u, v); }
    for k := 0 to |links|
      invariant Entries(links[..k], [], kinds)
    {
      assert links[..k + 1] == links[..k] + [links[k]];
      ghost var more, after := links[..k + 1], kinds[Pair(links[k].source, links[k].target) := links[k].kind];
      forall u, v ensures Entry(more, [], after, u, v) {
        assert Entry(links[..k], [], kinds, u, v) by { assert Pair(u, v) in kinds || Pair(u, v) !in kinds; }
        EntryForwards(links[..k], links[k], kinds, u, v);
      }
      kinds := kinds[Pair(links[k].source, links[k].target) := links[k].kind];
    }
    assert links[..|links|] == links;
  }

  lemma NoEntry(u: NodeId, v: NodeId)
    ensures Entry([], [], map[], u, v)
  {
  }

  /** ... and then updated with every link read backwards. */
  method BothKinds(links: seq<Link>) returns (kinds: Kinds)
    ensures Entries(links, links, kinds)
  {
    hide Entry;
    kinds := ForwardKinds(links);
    for k := 0 to |links|
      invariant Entries(links, links[..k], kinds)
    {
      assert links[..k + 1] == links[..k] + [links[k]];
      ghost var back, after := links[..k + 1], kinds[Pair(links[k].target, links[k].source) := links[k].kind];
      forall u, v ensures Entry(links, back, after, u, v) {
        assert Entry(links, links[..k], kinds, u, v) by { assert Pair(u, v) in kinds || Pair(u, v) !in kinds; }
        EntryBackwards(links, links[..k], links[k], kinds, u, v);
      }
      kinds := kinds[Pair(links[k].target, links[k].source) := links[k].kind];
    }
    assert links[..|links|] == links;
  }

  method LinkKinds(links: seq<Link>) returns (kinds: Kinds)
    ensures forall u, v {:trigger Linked(links, u, v)} :: Linked(links, u, v) ==> Pair(u, v) in kinds && Shows(links, u, v, kinds[Pair(u, v)])
  {
    hide LastLink, NoLink, Linked;
    kinds := BothKinds(links);
    forall u, v {:trigger Linked(links, u, v)} | Linked(links, u, v)
      ensures Pair(u, v) in kinds && Shows(links, u, v, kinds[Pair(u, v)])
    {
      LinkedIff(links, u, v);
      assert Entry(links, links, kinds, u, v) by { assert Pair(u, v) in kinds || Pair(u, v) !in kinds; }
    }
  }

  datatype PathResult = UnknownNode | NoPath | Found(path: seq<NodeId>, links: seq<Link>)

  /** The links shown along a path: one per hop, each with the kind the links between its
      two ends give it. */
  ghost predicate ShownHop(links: seq<Link>, path: seq<NodeId>, l: Link, i: nat) {
    i + 1 < |path| && l.source == path[i] && l.target == path[i + 1] && Shows(links, path[i], path[i + 1], l.kind)
  }

  ghost predicate Labelled(links: seq<Link>, path: seq<NodeId>, shown: seq<Link>) {
    && |shown| == |path| - 1
    && forall i :: 0 <= i < |shown| ==> ShownHop(links, path, shown[i], i)
  }

  method Label(links: seq<Link>, chain: seq<NodeId>) returns (shown: seq<Link>)
    requires chain != []
    requires forall i :: Hop(links, chain, i)
    ensures Labelled(links, chain, shown)
  {
    var kinds := LinkKinds(links);
    shown := [];
    for i := 0 to |chain| - 1
      invariant |shown| == i
      invariant forall j :: 0 <= j < i ==> ShownHop(links, chain, shown[j], j)
    {
      assert Hop(links, chain, i);
      var kind := if Pair(chain[i], chain[i + 1]) in kinds then kinds[Pair(chain[i], chain[i + 1])] else "linked";
      shown := shown + [Link(chain[i], chain[i + 1], kind)];
    }
  }

  method ShortestPath(nodes: map<NodeId, Node>, links: seq<Link>, src: NodeId, dst: NodeId) returns (r: PathResult)
    requires Closed(nodes, links)
    ensures r.UnknownNode? <==> src !in nodes || dst !in nodes
    ensures r.Found? <==> src in nodes && dst in nodes && Connected(links, src, dst)
    ensures r.Found? ==> Shortest(links, r.path, src, dst) && Labelled(links, r.path, r.links)
  {
    if src !in nodes || dst !in nodes {
      return UnknownNode;
    }
    if src == dst {
      assert Walk(links, [src], src, dst);
      return Found([src], []);
    }
    var prev, dist := Search(nodes, links, src, dst);
    if dst !in prev {
      return NoPath;
    }
    var chain := Rebuild(links, src, dst, prev, dist);
    var shown := Label(links, chain);
    r := Found(chain, shown);
  }

  /** From the stores to the path: found exactly when both ends are in the graph and
      its links connect them. */
  method PathBetween(actors: seq<ActorRow>, reports: seq<ReportRow>, iocs: seq<IocRow>, src: NodeId, dst: NodeId)
    returns (r: PathResult)
    ensures var links := GraphLinks(actors, reports, iocs);
      && (r.UnknownNode? <==> !InGraph(actors, reports, links, src) || !InGraph(actors, reports, links, dst))
      && (r.Found? <==> !r.UnknownNode? && Connected(links, src, dst))
      && (r.Found? ==> Shortest(links, r.path, src, dst) && Labelled(links, r.path, r.links))
    // What a row tells of is one hop apart.
    ensures (exists l :: Told(actors, reports, iocs, l) && Joins(l, src, dst)) ==> r.Found? && Hops(r.path) <= 1
  {
    hide GraphLinks, HasRow, Touches, Shortest, Labelled, Connected, Told;
    var nodes, links := FullGraph(actors, reports, iocs);
    r := ShortestPath(nodes, links, src, dst);
    if l :| Told(actors, reports, iocs, l) && Joins(l, src, dst) {
      OneHop(nodes, links, l, src, dst);
    }
  }

  /** The two ends of a link are in the graph, and no shortest path between them has more
      than one hop. */
  lemma OneHop(nodes: map<NodeId, Node>, links: seq<Link>, l: Link, u: NodeId, v: NodeId)
    requires Closed(nodes, links) && l in links && Joins(l, u, v)
    ensures u in nodes && v in nodes && Connected(links, u, v)
    ensures forall p :: Shortest(links, p, u, v) ==> Hops(p) <= 1
  {
    assert Hop(links, [u, v], 0) && forall i :: i != 0 ==> Hop(links, [u, v], i);
    assert Walk(links, [u, v], u, v);
  }

  ghost predicate InGraph(actors: seq<ActorRow>, reports: seq<ReportRow>, links: seq<Link>, v: NodeId) {
    HasRow(v, actors, reports) || Touches(links, v)
  }

  // ---------------------------------------------------------------------
  // The k-hop neighbourhood
  // ---------------------------------------------------------------------

  ghost predicate WithinHops(links: seq<Link>, focus: NodeId, v: NodeId, k: int) {
    exists p :: Walk(links, p, focus, v) && Hops(p) <= k
  }

  ghost predicate AtHops(links: seq<Link>, focus: NodeId, v: NodeId, k: int) {
    exists p :: Walk(links, p, focus, v) && Hops(p) == k
  }

  lemma HopOnce(links: seq<Link>, focus: NodeId, v: NodeId, k: nat)
    ensures AtHops(links, focus, v, k + 1) <==> exists u :: AtHops(links, focus, u, k) && Linked(links, u, v)
  {
    if AtHops(links, focus, v, k + 1) {
      var p :| Walk(links, p, focus, v) && Hops(p) == k + 1;
      var init := p[..|p| - 1];
      forall i ensures Hop(links, init, i) { assert Hop(links, p, i); }
      assert Walk(links, init, focus, p[|p| - 2]);
      assert Hop(links, p, |p| - 2);
    }
    if u :| AtHops(links, focus, u, k) && Linked(links, u, v) {
      var p :| Walk(links, p, focus, u) && Hops(p) == k;
      forall i ensures Hop(links, p + [v], i) { assert Hop(links, p, i); }
      assert Walk(links, p + [v], focus, v);
    }
  }

  /** `build`: the whole graph, or what lies within `depth` hops of a known focus
      (one hop at least) with every link between two kept nodes. */
  method Build(nodes: map<NodeId, Node>, links: seq<Link>, focus: NodeId, depth: int)
    returns (kept: map<NodeId, Node>, keptLinks: seq<Link>, ghost at: seq<nat>)
    requires Closed(nodes, links)
    ensures focus !in nodes ==> kept == nodes && keptLinks == links
    ensures focus in nodes ==> forall v ::
      v in kept <==> v in nodes && WithinHops(links, focus, v, Max(1, depth))
    ensures forall v :: v in kept ==> kept[v] == nodes[v]
    ensures focus in nodes ==> keptLinks == Filter(links, kept.Keys)
    ensures focus in nodes ==> KeptAt(links, kept.Keys, keptLinks, at)
    ensures Closed(kept, keptLinks)
  {
    if focus == NoNode || focus !in nodes {
      return nodes, links, [];
    }
    var adj := Adjacency(links);
    var keep, frontier := {focus}, {focus};
    assert Walk(links, [focus], focus, focus);
    for k := 0 to Max(1, depth)
      invariant forall v :: v in frontier <==> AtHops(links, focus, v, k)
      invariant forall v :: v in keep <==> WithinHops(links, focus, v, k)
      invariant keep <= nodes.Keys && frontier <= nodes.Keys
    {
      var nxt: set<NodeId> := {};
      var todo := frontier;
      while todo != {}
        invariant todo <= frontier
        invariant forall v :: v in nxt <==> exists u :: u in frontier - todo && v in Get(adj, u)
        decreases todo
      {
        var n :| n in todo;
        todo := todo - {n};
        nxt := nxt + Get(adj, n);
      }
      forall v ensures v in nxt <==> AtHops(links, focus, v, k + 1) { HopOnce(links, focus, v, k); }
      assert forall v :: WithinHops(links, focus, v, k + 1)
                    <==> WithinHops(links, focus, v, k) || AtHops(links, focus, v, k + 1);
      keep := keep + nxt;
      frontier := nxt;
    }
    kept := map v | v in nodes && v in keep :: nodes[v];
    keptLinks := Filter(links, keep);
    at := FilterAt(links, keep);
    assert kept.Keys == keep;
  }

  /** Of the links those with both ends kept, in their order. */
  ghost predicate KeptAt(links: seq<Link>, keep: set<NodeId>, r: seq<Link>, at: seq<nat>) {
    && Ascending(at) && |r| == |at|
    && (forall k: nat :: k in at <==> k < |links| && links[k].source in keep && links[k].target in keep)
    && (forall j :: 0 <= j < |at| ==> at[j] < |links| && r[j] == links[at[j]])
  }

  lemma {:induction false} FilterAt(links: seq<Link>, keep: set<NodeId>) returns (at: seq<nat>)
    ensures KeptAt(links, keep, Filter(links, keep), at)
  {
    hide KeptAt;
    if links == [] {
      at := [];
      NothingKept(keep);
    } else {
      var init, l := links[..|links| - 1], links[|links| - 1];
      at := FilterAt(init, keep);
      KeptOn(init, l, keep, Filter(init, keep), at);
      assert init + [l] == links && Filter(init, keep) + [] == Filter(init, keep);
      at := if l.source in keep && l.target in keep then at + [|init|] else at;
    }
  }

  lemma NothingKept(keep: set<NodeId>)
    ensures KeptAt([], keep, [], [])
  {
  }

  lemma KeptOn(links: seq<Link>, l: Link, keep: set<NodeId>, r: seq<Link>, at: seq<nat>)
    requires KeptAt(links, keep, r, at)
    ensures
      if l.source in keep && l.target in keep then KeptAt(links + [l], keep, r + [l], at + [|links|])
      else KeptAt(links + [l], keep, r, at)
  {
    var more := links + [l];
    assert more[|links|] == l && forall k: nat :: k < |links| ==> more[k] == links[k];
    AscendingSnoc(at, |links|);
  }

  function Filter(links: seq<Link>, keep: set<NodeId>): (r: seq<Link>)
    ensures forall l :: l in r <==> l in links && l.source in keep && l.target in keep
  {
    if links == [] then []
    else
      var l := links[|links| - 1];
      Filter(links[..|links| - 1], keep) + (if l.source in keep && l.target in keep then [l] else [])
  }

  // ---------------------------------------------------------------------
  // One pivot hop
  // ---------------------------------------------------------------------

  /** Some link joins the two, in either direction, and is of this kind. */
  ghost predicate Real(links: seq<Link>, u: NodeId, v: NodeId, kind: string) {
    exists l :: l in links && Joins(l, u, v) && l.kind == kind
  }

  datatype Neighbour = Neighbour(id: NodeId, kind: string)

  /** One entry for each link at the node, in the order of the links. */
  ghost predicate ListedAt(links: seq<Link>, node: NodeId, listed: seq<Neighbour>, at: seq<nat>) {
    && Ascending(at) && |listed| == |at|
    && (forall k: nat :: k in at <==> k < |links| && (links[k].source == node || links[k].target == node))
    && (forall j :: 0 <= j < |at| ==>
          at[j] < |links| && listed[j].kind == links[at[j]].kind
          && (if links[at[j]].source == node then listed[j].id == links[at[j]].target else listed[j].id == links[at[j]].source))
  }

  lemma NothingListed(links: seq<Link>, node: NodeId)
    ensures ListedAt(links[..0], node, [], [])
  {
  }

  lemma ListedOn(links: seq<Link>, l: Link, node: NodeId, listed: seq<Neighbour>, at: seq<nat>)
    requires ListedAt(links, node, listed, at)
    ensures
      if l.source == node || l.target == node then
        ListedAt(links + [l], node, listed + [Neighbour(if l.source == node then l.target else l.source, l.kind)], at + [|links|])
      else ListedAt(links + [l], node, listed, at)
  {
    var more := links + [l];
    assert more[|links|] == l && forall k: nat :: k < |links| ==> more[k] == links[k];
    AscendingSnoc(at, |links|);
  }

  /** The pivot lists a node's links one by one: who is listed is who is one hop away,
      each entry has the kind of a link that joins the two, and every such link has an
      entry. The second result says that the node is known. */
  method Neighbours(nodes: map<NodeId, Node>, links: seq<Link>, node: NodeId)
    returns (listed: seq<Neighbour>, known: bool, ghost at: seq<nat>)
    requires Closed(nodes, links)
    ensures known <==> node in nodes
    ensures !known ==> listed == []
    ensures known ==> forall n :: n in listed <==> Real(links, node, n.id, n.kind)
    ensures known ==> ListedAt(links, node, listed, at)
  {
    hide ListedAt;
    listed, known, at := [], node in nodes, [];
    NothingListed(links, node);
    if !known {
      return;
    }
    for k := 0 to |links|
      invariant forall n :: n in listed <==> Real(links[..k], node, n.id, n.kind)
      invariant ListedAt(links[..k], node, listed, at)
    {
      var l := links[k];
      assert links[..k + 1] == links[..k] + [l];
      forall n: Neighbour { RealSnoc(links[..k], l, node, n.id, n.kind); }
      ListedOn(links[..k], l, node, listed, at);
      if l.source == node || l.target == node {
        at := at + [k];
      }
      if l.source == node && l.target in nodes {
        listed := listed + [Neighbour(l.target, l.kind)];
      } else if l.source != node && l.target == node && l.source in nodes {
        listed := listed + [Neighbour(l.source, l.kind)];
      }
    }
    assert links[..|links|] == links;
  }

  lemma RealSnoc(links: seq<Link>, l: Link, u: NodeId, v: NodeId, kind: string)
    ensures Real(links + [l], u, v, kind) <==> Real(links, u, v, kind) || (Joins(l, u, v) && l.kind == kind)
  {
    assert forall x :: x in links + [l] <==> x in links || x == l;
  }

  /** Being listed is being one hop away. */
  lemma ListedIsOneHop(links: seq<Link>, u: NodeId, v: NodeId)
    ensures (exists kind :: Real(links, u, v, kind)) <==> AtHops(links, u, v, 1)
  {
    if AtHops(links, u, v, 1) {
      var p :| Walk(links, p, u, v) && Hops(p) == 1;
      assert Hop(links, p, 0);
      var l :| l in links && Joins(l, u, v);
      assert Real(links, u, v, l.kind);
    }
    if kind :| Real(links, u, v, kind) {
      assert Linked(links, u, v);
      forall i ensures Hop(links, [u, v], i) { }
      assert Walk(links, [u, v], u, v);
    }
  }
}

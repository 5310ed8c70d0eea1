/** The subscriber registry: profiles keyed by IMSI, and three secondary indexes that point
    at the same profile objects. Times are nanoseconds; 0 is Go's zero time. */
module Subscribers {
  import opened KeyedFold

  datatype Session = Session(
    sessionID: string, imsi: string, msisdn: string, ueIP: string,
    teids: seq<string>, bearerTeids: seq<string>, seids: seq<string>,
    apn: string, pdnType: string, ratType: string, servingNetwork: string, location: string, ueState: string,
    startTime: nat, endTime: nat)

  datatype Profile = Profile(
    imsi: string, msisdn: string,
    ueIPs: seq<string>, teids: seq<string>, bearerTeids: seq<string>, seids: seq<string>, sessionIDs: seq<string>,
    apn: string, pdnType: string, ratType: string, servingNetwork: string, location: string, state: string,
    firstSeen: nat, lastSeen: nat)

  // ----- one session into one profile

  function AppendUniq(xs: seq<string>, x: string): seq<string> { if x in xs then xs else xs + [x] }

  function AppendAll(xs: seq<string>, ys: seq<string>): seq<string> {
    if ys == [] then xs else AppendUniq(AppendAll(xs, ys[..|ys| - 1]), ys[|ys| - 1])
  }

  const NOBODY := Profile("", "", [], [], [], [], [], "", "", "", "", "", "", 0, 0)

  function NewProfile(s: Session): Profile {
    Profile(s.imsi, "", [], [], [], [], [], "", "", "", "", "", "", s.startTime, 0)
  }

  /** The first value seen stays. */
  function Keep(old_: string, new_: string): string { if old_ == "" then new_ else old_ }

  /** The latest value seen wins. */
  function Latest(old_: string, new_: string): string { if new_ != "" then new_ else old_ }

  function Earliest(first: nat, start: nat): nat { if start != 0 && (first == 0 || start < first) then start else first }

  function Enrich(p: Profile, s: Session): Profile {
    Profile(p.imsi, Keep(p.msisdn, s.msisdn),
            if s.ueIP != "" then AppendUniq(p.ueIPs, s.ueIP) else p.ueIPs,
            AppendAll(p.teids, s.teids), AppendAll(p.bearerTeids, s.bearerTeids), AppendAll(p.seids, s.seids),
            AppendUniq(p.sessionIDs, s.sessionID),
            Keep(p.apn, s.apn), Keep(p.pdnType, s.pdnType), Keep(p.ratType, s.ratType),
            Keep(p.servingNetwork, s.servingNetwork), Latest(p.location, s.location), Latest(p.state, s.ueState),
            Earliest(p.firstSeen, s.startTime), if s.endTime > p.lastSeen then s.endTime else p.lastSeen)
  }

  /** Profiles by IMSI, and the IMSI each secondary key leads to. */
  datatype Registry = Registry(
    profiles: map<string, Profile>, msisdn: map<string, string>, ueIP: map<string, string>, teid: map<string, string>)

  const SUBSCRIBERS: Decoder<Session, string, Profile> :=
    Decoder((s: Session) => s.imsi != "", (s: Session) => s.imsi, NewProfile, Enrich)

  function PointAll(m: map<string, string>, keys: seq<string>, v: string): map<string, string> {
    if keys == [] then m else PointAll(m, keys[..|keys| - 1], v)[keys[|keys| - 1] := v]
  }

  ghost function Apply(r: Registry, s: Session): Registry {
    if s.imsi == "" then r
    else
      var profiles := Handle(SUBSCRIBERS, r.profiles, s);
      var number := profiles[s.imsi].msisdn;
      Registry(profiles,
               if number != "" then r.msisdn[number := s.imsi] else r.msisdn,
               if s.ueIP != "" then r.ueIP[s.ueIP := s.imsi] else r.ueIP,
               PointAll(r.teid, s.teids, s.imsi))
  }

  lemma HandleIs(m: map<string, Profile>, s: Session)
    requires s.imsi != ""
    ensures Handle(SUBSCRIBERS, m, s) == m[s.imsi := Enrich(Base(m, s), s)]
  {
  }

  /** The subscriber's profile before a session, new if there is none. */
  function Base(m: map<string, Profile>, s: Session): Profile {
    if s.imsi in m then m[s.imsi] else NewProfile(s)
  }

  // ----- the registry object

  /** A profile on the heap, shared by the maps that point at it. */
  class ProfileCell {
    var data: Profile

    constructor (data: Profile)
      ensures this.data == data
    {
      this.data := data;
    }
  }

  method AppendUniqLoop(xs: seq<string>, x: string) returns (r: seq<string>)
    ensures r == AppendUniq(xs, x)
  {
    for i := 0 to |xs|
      invariant x !in xs[..i]
    {
      if xs[i] == x {
        return xs;
      }
    }
    return xs + [x];
  }

  method AppendAllLoop(xs: seq<string>, ys: seq<string>) returns (r: seq<string>)
    ensures r == AppendAll(xs, ys)
  {
    r := xs;
    for i := 0 to |ys|
      invariant r == AppendAll(xs, ys[..i])
    {
      assert ys[..i + 1][..i] == ys[..i];
      r := AppendUniqLoop(r, ys[i]);
    }
    assert ys[..|ys|] == ys;
  }

  // ----- what the maps mean, given the profiles on the heap

  /** What each of the registry's cells holds. */
  type Heap = map<ProfileCell, Profile>

  type Index = map<string, ProfileCell>

  /** Every key of an index leads to one of the registry's cells. */
  ghost predicate Points(h: Heap, index: Index) { forall x :: x in index ==> index[x] in h }

  /** The IMSI each key of an index leads to. */
  ghost function Owners(h: Heap, index: Index): map<string, string>
    requires Points(h, index)
  {
    map x | x in index :: h[index[x]].imsi
  }

  ghost function Contents(h: Heap, index: Index): map<string, Profile>
    requires Points(h, index)
  {
    map x | x in index :: h[index[x]]
  }

  /** `byIMSI` holds every cell, under its own IMSI. */
  ghost predicate Coherent(h: Heap, byIMSI: Index) {
    && Points(h, byIMSI)
    && (forall i :: i in byIMSI ==> h[byIMSI[i]].imsi == i)
    && (forall c :: c in h ==> h[c].imsi in byIMSI && byIMSI[h[c].imsi] == c)
  }

  lemma AddOwners(h: Heap, cell: ProfileCell, p: Profile, index: Index)
    requires Points(h, index) && cell !in h
    ensures Points(h[cell := p], index) && Owners(h[cell := p], index) == Owners(h, index)
  {
  }

  lemma AddContents(h: Heap, cell: ProfileCell, p: Profile, byIMSI: Index)
    requires Coherent(h, byIMSI) && cell !in h && p.imsi !in byIMSI
    ensures Coherent(h[cell := p], byIMSI[p.imsi := cell])
    ensures Contents(h[cell := p], byIMSI[p.imsi := cell]) == Contents(h, byIMSI)[p.imsi := p]
  {
  }

  lemma ChangeOwners(h: Heap, cell: ProfileCell, p: Profile, index: Index)
    requires Points(h, index) && cell in h && p.imsi == h[cell].imsi
    ensures Points(h[cell := p], index) && Owners(h[cell := p], index) == Owners(h, index)
  {
  }

  lemma ChangeContents(h: Heap, cell: ProfileCell, p: Profile, byIMSI: Index)
    requires Coherent(h, byIMSI) && cell in h && p.imsi == h[cell].imsi
    ensures Coherent(h[cell := p], byIMSI)
    ensures Contents(h[cell := p], byIMSI) == Contents(h, byIMSI)[p.imsi := p]
  {
  }

  /** The maps of a registry: `byIMSI` in charge, and three more that lead to its cells. */
  ghost predicate Ready(h: Heap, byIMSI: Index, byMSISDN: Index, byUEIP: Index, byTEID: Index) {
    Coherent(h, byIMSI) && Points(h, byMSISDN) && Points(h, byUEIP) && Points(h, byTEID)
  }

  ghost function Meaning(h: Heap, byIMSI: Index, byMSISDN: Index, byUEIP: Index, byTEID: Index): Registry
    requires Ready(h, byIMSI, byMSISDN, byUEIP, byTEID)
  {
    Registry(Contents(h, byIMSI), Owners(h, byMSISDN), Owners(h, byUEIP), Owners(h, byTEID))
  }

  lemma AddMeaning(
    h: Heap, h': Heap, cell: ProfileCell, p: Profile, a: Index, a': Index, b: Index, c: Index, d: Index)
    requires Ready(h, a, b, c, d) && cell !in h && p.imsi !in a
    requires h' == h[cell := p] && a' == a[p.imsi := cell]
    ensures Ready(h', a', b, c, d)
    ensures Meaning(h', a', b, c, d)
            == Meaning(h, a, b, c, d).(profiles := Meaning(h, a, b, c, d).profiles[p.imsi := p])
  {
    AddOwners(h, cell, p, b);
    AddOwners(h, cell, p, c);
    AddOwners(h, cell, p, d);
    AddContents(h, cell, p, a);
  }

  lemma ChangeMeaning(h: Heap, cell: ProfileCell, p: Profile, a: Index, b: Index, c: Index, d: Index)
    requires Ready(h, a, b, c, d) && cell in h && p.imsi == h[cell].imsi
    ensures Ready(h[cell := p], a, b, c, d)
    ensures Meaning(h[cell := p], a, b, c, d)
            == Meaning(h, a, b, c, d).(profiles := Meaning(h, a, b, c, d).profiles[p.imsi := p])
  {
    ChangeOwners(h, cell, p, b);
    ChangeOwners(h, cell, p, c);
    ChangeOwners(h, cell, p, d);
    ChangeContents(h, cell, p, a);
  }

  lemma PointOwners(h: Heap, index: Index, x: string, cell: ProfileCell)
    requires Points(h, index) && cell in h
    ensures Points(h, index[x := cell]) && Owners(h, index[x := cell]) == Owners(h, index)[x := h[cell].imsi]
  {
  }

  lemma UpdateTwice(m: map<string, Profile>, x: string, p: Profile, q: Profile)
    ensures m[x := p][x := q] == m[x := q]
  {
  }

  lemma SameEntry(m: map<string, Profile>, x: string)
    requires x in m
    ensures m[x := m[x]] == m
  {
  }

  class SubscriberRegistry {
    var byIMSI: map<string, ProfileCell>
    var byMSISDN: map<string, ProfileCell>
    var byUEIP: map<string, ProfileCell>
    var byTEID: map<string, ProfileCell>

    ghost var cells: set<ProfileCell>

    ghost function Data(): (h: Heap)
      reads this`cells, cells
      ensures h.Keys == cells
    {
      map c | c in cells :: c.data
    }

    ghost predicate Valid()
      reads this, cells
    {
      Ready(Data(), byIMSI, byMSISDN, byUEIP, byTEID)
    }

    ghost function View(): Registry
      requires Valid()
      reads this, cells
    {
      Meaning(Data(), byIMSI, byMSISDN, byUEIP, byTEID)
    }

    constructor ()
      ensures Valid() && View() == Registry(map[], map[], map[], map[]) && cells == {}
    {
      byIMSI, byMSISDN, byUEIP, byTEID, cells := map[], map[], map[], map[], {};
    }

    /** The scalar and list enrichment, on the shared cell. */
    method EnrichCell(cell: ProfileCell, s: Session)
      modifies cell
      ensures cell.data == Enrich(old(cell.data), s)
    {
      var p := cell.data;
      var sessionIDs := AppendUniqLoop(p.sessionIDs, s.sessionID);
      var ueIPs := p.ueIPs;
      if s.ueIP != "" {
        ueIPs := AppendUniqLoop(p.ueIPs, s.ueIP);
      }
      var teids := AppendAllLoop(p.teids, s.teids);
      var bearerTeids := AppendAllLoop(p.bearerTeids, s.bearerTeids);
      var seids := AppendAllLoop(p.seids, s.seids);
      var firstSeen, lastSeen := p.firstSeen, p.lastSeen;
      if s.startTime != 0 && (firstSeen == 0 || s.startTime < firstSeen) {
        firstSeen := s.startTime;
      }
      if s.endTime != 0 && s.endTime > lastSeen {
        lastSeen := s.endTime;
      }
      cell.data := Profile(
        p.imsi, Keep(p.msisdn, s.msisdn), ueIPs, teids, bearerTeids, seids, sessionIDs,
        Keep(p.apn, s.apn), Keep(p.pdnType, s.pdnType), Keep(p.ratType, s.ratType),
        Keep(p.servingNetwork, s.servingNetwork), Latest(p.location, s.location), Latest(p.state, s.ueState),
        firstSeen, lastSeen);
    }

    /** Creates the cell of a subscriber not seen before. */
    method Create(imsi: string, p: Profile) returns (cell: ProfileCell)
      requires Valid() && imsi !in byIMSI && p.imsi == imsi
      modifies `byIMSI, `cells
      ensures Valid() && fresh(cell) && cells == old(cells) + {cell}
      ensures IsCellOf(cell, imsi) && cell.data == p
      ensures View() == old(View()).(profiles := old(View()).profiles[imsi := p])
    {
      ghost var h := Data();
      cell := new ProfileCell(p);
      assert Data() == h;
      AddCell(cell, p);
    }

    method AddCell(cell: ProfileCell, ghost p: Profile)
      requires Valid() && p.imsi !in byIMSI && cell !in cells && cell.data == p
      modifies `byIMSI, `cells
      ensures Valid() && cells == old(cells) + {cell} && IsCellOf(cell, p.imsi)
      ensures View() == old(View()).(profiles := old(View()).profiles[p.imsi := p])
    {
      ghost var h, a := Data(), byIMSI;
      byIMSI := byIMSI[cell.data.imsi := cell];
      GrowCells(cell);
      AddMeaning(h, Data(), cell, p, a, byIMSI, byMSISDN, byUEIP, byTEID);
    }

    ghost method GrowCells(cell: ProfileCell)
      requires cell !in cells
      modifies `cells
      ensures cells == old(cells) + {cell} && Data() == old(Data())[cell := cell.data]
    {
      cells := cells + {cell};
    }

    /** Enriches a cell; the indexes still lead where they led. */
    method EnrichInPlace(cell: ProfileCell, s: Session)
      requires Valid() && IsCellOf(cell, s.imsi)
      modifies cell
      ensures Valid() && IsCellOf(cell, s.imsi) && cell.data == Enrich(old(cell.data), s)
      ensures View() == old(View()).(profiles := old(View()).profiles[s.imsi := cell.data])
    {
      ghost var h := Data();
      EnrichCell(cell, s);
      ChangeMeaning(h, cell, cell.data, byIMSI, byMSISDN, byUEIP, byTEID);
      assert Data() == h[cell := cell.data];
    }

    /** Finds or creates the subscriber's profile. */
    method FindOrCreate(s: Session) returns (cell: ProfileCell)
      requires Valid()
      modifies `byIMSI, `cells
      ensures Valid() && IsCellOf(cell, s.imsi) && cell.data == Base(old(View()).profiles, s)
      ensures cells == old(cells) + {cell} && fresh(cells - old(cells))
      ensures View() == old(View()).(profiles := old(View()).profiles[s.imsi := cell.data])
    {
      if s.imsi in byIMSI {
        cell := byIMSI[s.imsi];
        SameEntry(View().profiles, s.imsi);
      } else {
        cell := Create(s.imsi, NewProfile(s));
      }
    }

    /** ... and brings it up to date. */
    method Upsert(s: Session) returns (cell: ProfileCell)
      requires Valid()
      modifies `byIMSI, `cells, cells
      ensures Valid() && IsCellOf(cell, s.imsi) && cell.data == Enrich(Base(old(View()).profiles, s), s)
      ensures fresh(cells - old(cells))
      ensures View() == old(View()).(profiles := old(View()).profiles[s.imsi := cell.data])
    {
      ghost var m := View().profiles;
      cell := FindOrCreate(s);
      ghost var p := cell.data;
      EnrichInPlace(cell, s);
      UpdateTwice(m, s.imsi, p, cell.data);
    }

    ghost predicate IsCellOf(cell: ProfileCell, imsi: string)
      reads this, cells
    {
      imsi in byIMSI && byIMSI[imsi] == cell && cell in cells && cell.data.imsi == imsi
    }

    method PointUEIP(cell: ProfileCell, imsi: string, ip: string)
      requires Valid() && IsCellOf(cell, imsi)
      modifies `byUEIP
      ensures Valid() && View() == old(View()).(ueIP := old(View()).ueIP[ip := imsi])
    {
      ghost var h := Data();
      PointOwners(h, byUEIP, ip, cell);
      byUEIP := byUEIP[ip := cell];
      assert Data() == h;
    }

    method PointMSISDN(cell: ProfileCell, imsi: string, number: string)
      requires Valid() && IsCellOf(cell, imsi)
      modifies `byMSISDN
      ensures Valid() && View() == old(View()).(msisdn := old(View()).msisdn[number := imsi])
    {
      ghost var h := Data();
      PointOwners(h, byMSISDN, number, cell);
      byMSISDN := byMSISDN[number := cell];
      assert Data() == h;
    }

    method PointTEID(cell: ProfileCell, imsi: string, teid: string)
      requires Valid() && IsCellOf(cell, imsi)
      modifies `byTEID
      ensures Valid() && View() == old(View()).(teid := old(View()).teid[teid := imsi])
    {
      ghost var h := Data();
      PointOwners(h, byTEID, teid, cell);
      byTEID := byTEID[teid := cell];
      assert Data() == h;
    }

    method PointTEIDs(cell: ProfileCell, imsi: string, teids: seq<string>)
      requires Valid() && IsCellOf(cell, imsi)
      modifies `byTEID
      ensures Valid() && View() == old(View()).(teid := PointAll(old(View()).teid, teids, imsi))
    {
      ghost var before := View();
      for i := 0 to |teids|
        invariant Valid() && View() == before.(teid := PointAll(before.teid, teids[..i], imsi))
      {
        assert teids[..i + 1][..i] == teids[..i];
        PointTEID(cell, imsi, teids[i]);
      }
      assert teids[..|teids|] == teids;
    }

    /** Points the secondary indexes at the cell. */
    method PointIndexes(cell: ProfileCell, s: Session)
      requires Valid() && IsCellOf(cell, s.imsi)
      modifies `byMSISDN, `byUEIP, `byTEID
      ensures Valid()
      ensures
        var r := old(View());
        View() == Registry(r.profiles,
                           if cell.data.msisdn != "" then r.msisdn[cell.data.msisdn := s.imsi] else r.msisdn,
                           if s.ueIP != "" then r.ueIP[s.ueIP := s.imsi] else r.ueIP,
                           PointAll(r.teid, s.teids, s.imsi))
    {
      if s.ueIP != "" {
        PointUEIP(cell, s.imsi, s.ueIP);
      }
      PointTEIDs(cell, s.imsi, s.teids);
      if cell.data.msisdn != "" {
        PointMSISDN(cell, s.imsi, cell.data.msisdn);
      }
    }

    method Update(s: Session)
      requires Valid()
      modifies this, cells
      ensures Valid() && View() == Apply(old(View()), s)
      ensures fresh(cells - old(cells))
    {
      if s.imsi == "" {
        return;
      }
      ghost var m := View().profiles;
      var cell := Upsert(s);
      HandleIs(m, s);
      assert View().profiles[s.imsi] == cell.data;
      PointIndexes(cell, s);
    }

    method UpdateAll(ss: seq<Session>)
      requires Valid()
      modifies this, cells
      ensures Valid() && View() == ApplyAll(old(View()), ss)
    {
      ghost var start := View();
      for i := 0 to |ss|
        invariant Valid() && View() == ApplyAll(start, ss[..i])
        invariant fresh(cells - old(cells))
      {
        assert ss[..i + 1][..i] == ss[..i];
        Update(ss[i]);
      }
      assert ss[..|ss|] == ss;
    }

    method LookupByMSISDN(msisdn: string) returns (found: bool, p: Profile)
      requires Valid()
      ensures found == (msisdn in View().msisdn)
      ensures found ==> View().msisdn[msisdn] in View().profiles && p == View().profiles[View().msisdn[msisdn]]
    {
      if msisdn in byMSISDN {
        return true, byMSISDN[msisdn].data;
      }
      return false, NOBODY;
    }

    method LookupByUEIP(ip: string) returns (found: bool, p: Profile)
      requires Valid()
      ensures found == (ip in View().ueIP)
      ensures found ==> View().ueIP[ip] in View().profiles && p == View().profiles[View().ueIP[ip]]
    {
      if ip in byUEIP {
        return true, byUEIP[ip].data;
      }
      return false, NOBODY;
    }

    method LookupByTEID(teid: string) returns (found: bool, p: Profile)
      requires Valid()
      ensures found == (teid in View().teid)
      ensures found ==> View().teid[teid] in View().profiles && p == View().profiles[View().teid[teid]]
    {
      if teid in byTEID {
        return true, byTEID[teid].data;
      }
      return false, NOBODY;
    }
  }

  lemma {:induction false} PointAllEntries(m: map<string, string>, keys: seq<string>, v: string)
    ensures forall x :: x in PointAll(m, keys, v) <==> x in m || x in keys
    ensures forall x :: x in PointAll(m, keys, v) ==> PointAll(m, keys, v)[x] == if x in keys then v else m[x]
    decreases |keys|
  {
    if keys != [] {
      var front := keys[..|keys| - 1];
      PointAllEntries(m, front, v);
      assert keys == front + [keys[|keys| - 1]];
    }
  }

  // ----- whole histories

  /** A registry after further sessions. */
  ghost function ApplyAll(r: Registry, ss: seq<Session>): Registry {
    if ss == [] then r else Apply(ApplyAll(r, ss[..|ss| - 1]), ss[|ss| - 1])
  }

  /** The registry of a whole session history. */
  ghost function History(ss: seq<Session>): Registry {
    if ss == [] then Registry(map[], map[], map[], map[]) else Apply(History(ss[..|ss| - 1]), ss[|ss| - 1])
  }

  /** Updating in several calls is one history. */
  lemma {:induction false} HistoryAppend(before: seq<Session>, ss: seq<Session>)
    ensures History(before + ss) == ApplyAll(History(before), ss)
    decreases |ss|
  {
    if ss == [] {
      assert before + ss == before;
    } else {
      HistoryAppend(before, ss[..|ss| - 1]);
      assert (before + ss)[..|before + ss| - 1] == before + ss[..|ss| - 1];
    }
  }

  datatype Owner = Nobody | Known(imsi: string)

  /** The subscriber of the last IMSI-bearing session that names a UE address. */
  function LastWithIP(ss: seq<Session>, ip: string): Owner {
    if ss == [] then Nobody
    else if ss[|ss| - 1].imsi != "" && ss[|ss| - 1].ueIP == ip then Known(ss[|ss| - 1].imsi)
    else LastWithIP(ss[..|ss| - 1], ip)
  }

  /** The subscriber of the last IMSI-bearing session that names a TEID. */
  function LastWithTeid(ss: seq<Session>, teid: string): Owner {
    if ss == [] then Nobody
    else if ss[|ss| - 1].imsi != "" && teid in ss[|ss| - 1].teids then Known(ss[|ss| - 1].imsi)
    else LastWithTeid(ss[..|ss| - 1], teid)
  }

  /** The first number that a session of the subscriber names. */
  function NumberOf(ss: seq<Session>, imsi: string): string {
    if ss == [] then ""
    else
      var n := NumberOf(ss[..|ss| - 1], imsi);
      if n == "" && ss[|ss| - 1].imsi == imsi then ss[|ss| - 1].msisdn else n
  }

  /** The subscriber of the last IMSI-bearing session whose subscriber then has the number. */
  function LastWithNumber(ss: seq<Session>, number: string): Owner {
    if ss == [] then Nobody
    else if ss[|ss| - 1].imsi != "" && NumberOf(ss, ss[|ss| - 1].imsi) == number then Known(ss[|ss| - 1].imsi)
    else LastWithNumber(ss[..|ss| - 1], number)
  }

  ghost predicate LeadsTo(index: map<string, string>, x: string, o: Owner) {
    if x in index then o == Known(index[x]) else o == Nobody
  }

  lemma {:induction false} ProfilesAreTracked(ss: seq<Session>)
    ensures History(ss).profiles == Track(SUBSCRIBERS, ss)
    decreases |ss|
  {
    if ss != [] { ProfilesAreTracked(ss[..|ss| - 1]); }
  }

  /** Main lookup theorem: after any updates, a UE address or TEID leads to the subscriber
      of the last IMSI-bearing session naming it, and to nobody if there is none. */
  lemma {:induction false} LookupsFindLast(ss: seq<Session>, x: string)
    ensures x != "" ==> LeadsTo(History(ss).ueIP, x, LastWithIP(ss, x))
    ensures LeadsTo(History(ss).teid, x, LastWithTeid(ss, x))
    decreases |ss|
  {
    if ss != [] {
      var front, s := ss[..|ss| - 1], ss[|ss| - 1];
      LookupsFindLast(front, x);
      PointAllEntries(History(front).teid, s.teids, s.imsi);
    }
  }

  lemma {:induction false} NumberIsFirst(ss: seq<Session>, imsi: string)
    requires imsi != ""
    ensures NumberOf(ss, imsi) == if imsi in History(ss).profiles then History(ss).profiles[imsi].msisdn else ""
    decreases |ss|
  {
    if ss != [] {
      var front, s := ss[..|ss| - 1], ss[|ss| - 1];
      NumberIsFirst(front, imsi);
      if s.imsi != "" { HandleIs(History(front).profiles, s); }
    }
  }

  /** An MSISDN leads to the subscriber of the last session whose subscriber has it as its
      first number; so of two subscribers with one number, the last one updated is found. */
  lemma {:induction false} NumbersFindLast(ss: seq<Session>, x: string)
    requires x != ""
    ensures LeadsTo(History(ss).msisdn, x, LastWithNumber(ss, x))
    decreases |ss|
  {
    if ss != [] {
      var front, s := ss[..|ss| - 1], ss[|ss| - 1];
      NumbersFindLast(front, x);
      if s.imsi != "" {
        NumberIsFirst(ss, s.imsi);
        HandleIs(History(front).profiles, s);
      }
    }
  }

  ghost predicate Agrees(r: Registry) {
    && (forall x :: x in r.ueIP ==> r.ueIP[x] in r.profiles)
    && (forall x :: x in r.teid ==> r.teid[x] in r.profiles)
    && (forall x :: x in r.msisdn ==> x != "" && r.msisdn[x] in r.profiles && r.profiles[r.msisdn[x]].msisdn == x)
    && (forall i :: i in r.profiles ==> r.profiles[i].imsi == i)
    && (forall i :: i in r.profiles && r.profiles[i].msisdn != "" ==> r.profiles[i].msisdn in r.msisdn)
  }

  /** Main index theorem: every secondary entry leads to a subscriber that exists, an MSISDN
      leads to one whose own number it is, and every known number is indexed. */
  lemma {:induction false} IndexesAgree(ss: seq<Session>)
    ensures Agrees(History(ss))
    decreases |ss|
  {
    if ss != [] {
      IndexesAgree(ss[..|ss| - 1]);
      ApplyAgrees(History(ss[..|ss| - 1]), ss[|ss| - 1]);
    }
  }

  lemma ApplyAgrees(r: Registry, s: Session)
    requires Agrees(r)
    ensures Agrees(Apply(r, s))
  {
    if s.imsi != "" {
      var t := Apply(r, s);
      var base := if s.imsi in r.profiles then r.profiles[s.imsi] else NewProfile(s);
      assert t.profiles == r.profiles[s.imsi := Enrich(base, s)];
      PointAllEntries(r.teid, s.teids, s.imsi);
      assert forall x :: x in r.msisdn && r.msisdn[x] == s.imsi ==> base.msisdn == x;
    }
  }

  // ----- what one profile holds

  predicate NoDuplicates(xs: seq<string>) { forall i, j :: 0 <= i < j < |xs| ==> xs[i] != xs[j] }

  lemma {:induction false} AppendAllFacts(xs: seq<string>, ys: seq<string>)
    ensures NoDuplicates(xs) ==> NoDuplicates(AppendAll(xs, ys))
    ensures forall x :: x in AppendAll(xs, ys) <==> x in xs || x in ys
    decreases |ys|
  {
    if ys != [] {
      AppendAllFacts(xs, ys[..|ys| - 1]);
      assert ys == ys[..|ys| - 1] + [ys[|ys| - 1]];
    }
  }

  // the lists of identifiers a session names
  function Teids(s: Session): seq<string> { s.teids }
  function BearerTeids(s: Session): seq<string> { s.bearerTeids }
  function Seids(s: Session): seq<string> { s.seids }
  function UeIPs(s: Session): seq<string> { if s.ueIP != "" then [s.ueIP] else [] }
  function SessionIDs(s: Session): seq<string> { [s.sessionID] }

  /** Some session names x. */
  ghost predicate Names(qs: seq<Session>, lists: Session -> seq<string>, x: string) {
    exists i :: 0 <= i < |qs| && x in lists(qs[i])
  }

  /** The list has no duplicates and holds exactly what the sessions name. */
  ghost predicate Collects(xs: seq<string>, qs: seq<Session>, lists: Session -> seq<string>) {
    NoDuplicates(xs) && forall x :: x in xs <==> Names(qs, lists, x)
  }

  lemma CollectsNext(xs: seq<string>, qs: seq<Session>, lists: Session -> seq<string>, s: Session)
    requires Collects(xs, qs, lists)
    ensures Collects(AppendAll(xs, lists(s)), qs + [s], lists)
  {
    AppendAllFacts(xs, lists(s));
    var all := qs + [s];
    assert all[|qs|] == s && forall i :: 0 <= i < |qs| ==> all[i] == qs[i];
    forall x
      ensures Names(all, lists, x) <==> Names(qs, lists, x) || x in lists(s)
    {
      if i :| 0 <= i < |qs| && x in lists(qs[i]) { assert x in lists(all[i]); }
      if i :| 0 <= i < |all| && x in lists(all[i]) { assert i < |qs| ==> x in lists(qs[i]); }
    }
  }

  lemma AppendOne(xs: seq<string>, x: string)
    ensures AppendAll(xs, [x]) == AppendUniq(xs, x) && AppendAll(xs, []) == xs
  {
    assert [x][..0] == [];
  }

  /** The state of a subscriber before its last session. */
  ghost function Before(qs: seq<Session>): Profile
    requires qs != []
  {
    if |qs| == 1 then NewProfile(qs[0]) else FoldFlow(SUBSCRIBERS, qs[..|qs| - 1])
  }

  lemma FoldIsEnrich(qs: seq<Session>)
    requires qs != []
    ensures FoldFlow(SUBSCRIBERS, qs) == Enrich(Before(qs), qs[|qs| - 1])
  {
  }

  /** The registered identifiers are exactly those the subscriber's sessions name. */
  ghost predicate ListsExact(p: Profile, qs: seq<Session>) {
    && Collects(p.teids, qs, Teids) && Collects(p.bearerTeids, qs, BearerTeids) && Collects(p.seids, qs, Seids)
    && Collects(p.ueIPs, qs, UeIPs) && Collects(p.sessionIDs, qs, SessionIDs)
  }

  lemma ListsNext(p: Profile, qs: seq<Session>, s: Session)
    requires ListsExact(p, qs)
    ensures ListsExact(Enrich(p, s), qs + [s])
  {
    CollectsNext(p.teids, qs, Teids, s);
    CollectsNext(p.bearerTeids, qs, BearerTeids, s);
    CollectsNext(p.seids, qs, Seids, s);
    CollectsNext(p.ueIPs, qs, UeIPs, s);
    CollectsNext(p.sessionIDs, qs, SessionIDs, s);
    AppendOne(p.ueIPs, s.ueIP);
    AppendOne(p.sessionIDs, s.sessionID);
  }

  lemma {:induction false} ProfileLists(qs: seq<Session>)
    requires qs != []
    ensures ListsExact(FoldFlow(SUBSCRIBERS, qs), qs)
    decreases |qs|
  {
    var front, s := qs[..|qs| - 1], qs[|qs| - 1];
    if |qs| > 1 { ProfileLists(front); }
    FoldIsEnrich(qs);
    assert qs == front + [s];
    ListsNext(Before(qs), front, s);
  }

  // the scalar fields of a session
  function Msisdn(s: Session): string { s.msisdn }
  function Apn(s: Session): string { s.apn }
  function PdnType(s: Session): string { s.pdnType }
  function RatType(s: Session): string { s.ratType }
  function ServingNetwork(s: Session): string { s.servingNetwork }
  function Location(s: Session): string { s.location }
  function State(s: Session): string { s.ueState }

  /** `v` is the first non-empty value, or empty if there is none. */
  ghost predicate IsFirst(v: string, qs: seq<Session>, get: Session -> string) {
    if v == "" then forall i :: 0 <= i < |qs| ==> get(qs[i]) == ""
    else exists i :: 0 <= i < |qs| && get(qs[i]) == v && forall j :: 0 <= j < i ==> get(qs[j]) == ""
  }

  /** `v` is the last non-empty value, or empty if there is none. */
  ghost predicate IsLast(v: string, qs: seq<Session>, get: Session -> string) {
    if v == "" then forall i :: 0 <= i < |qs| ==> get(qs[i]) == ""
    else exists i :: 0 <= i < |qs| && get(qs[i]) == v && forall j :: i < j < |qs| ==> get(qs[j]) == ""
  }

  lemma FirstNext(v: string, qs: seq<Session>, get: Session -> string, s: Session)
    requires IsFirst(v, qs, get)
    ensures IsFirst(Keep(v, get(s)), qs + [s], get)
  {
    var all := qs + [s];
    assert all[|qs|] == s && forall i :: 0 <= i < |qs| ==> all[i] == qs[i];
    if v != "" {
      var i :| 0 <= i < |qs| && get(qs[i]) == v && forall j :: 0 <= j < i ==> get(qs[j]) == "";
      assert get(all[i]) == v;
    } else if get(s) != "" {
      assert get(all[|qs|]) == get(s);
    }
  }

  lemma LastNext(v: string, qs: seq<Session>, get: Session -> string, s: Session)
    requires IsLast(v, qs, get)
    ensures IsLast(Latest(v, get(s)), qs + [s], get)
  {
    var all := qs + [s];
    assert all[|qs|] == s && forall i :: 0 <= i < |qs| ==> all[i] == qs[i];
    if get(s) != "" {
      assert get(all[|qs|]) == get(s);
    } else if v != "" {
      var i :| 0 <= i < |qs| && get(qs[i]) == v && forall j :: i < j < |qs| ==> get(qs[j]) == "";
      assert get(all[i]) == v;
    }
  }

  ghost predicate ScalarsExact(p: Profile, qs: seq<Session>) {
    && IsFirst(p.msisdn, qs, Msisdn) && IsFirst(p.apn, qs, Apn) && IsFirst(p.pdnType, qs, PdnType)
    && IsFirst(p.ratType, qs, RatType) && IsFirst(p.servingNetwork, qs, ServingNetwork)
    && IsLast(p.location, qs, Location) && IsLast(p.state, qs, State)
  }

  lemma ScalarsNext(p: Profile, qs: seq<Session>, s: Session)
    requires ScalarsExact(p, qs)
    ensures ScalarsExact(Enrich(p, s), qs + [s])
  {
    FirstNext(p.msisdn, qs, Msisdn, s);
    FirstNext(p.apn, qs, Apn, s);
    FirstNext(p.pdnType, qs, PdnType, s);
    FirstNext(p.ratType, qs, RatType, s);
    FirstNext(p.servingNetwork, qs, ServingNetwork, s);
    LastNext(p.location, qs, Location, s);
    LastNext(p.state, qs, State, s);
  }

  lemma FreshScalars(s: Session)
    ensures ScalarsExact(NewProfile(s), [])
  {
  }

  lemma {:induction false} ProfileScalars(qs: seq<Session>)
    requires qs != []
    ensures ScalarsExact(FoldFlow(SUBSCRIBERS, qs), qs)
    decreases |qs|
  {
    var front, s := qs[..|qs| - 1], qs[|qs| - 1];
    if |qs| > 1 { ProfileScalars(front); } else { FreshScalars(s); }
    FoldIsEnrich(qs);
    assert qs == front + [s];
    ScalarsNext(Before(qs), front, s);
  }

  /** `t` is the earliest non-zero start, or 0 if all are zero. */
  ghost predicate IsEarliest(t: nat, qs: seq<Session>) {
    && (forall i :: 0 <= i < |qs| && qs[i].startTime != 0 ==> 0 < t <= qs[i].startTime)
    && (t != 0 ==> exists i :: 0 <= i < |qs| && qs[i].startTime == t)
  }

  /** `t` is the latest end, or 0 if all are zero. */
  ghost predicate IsLatest(t: nat, qs: seq<Session>) {
    && (forall i :: 0 <= i < |qs| ==> qs[i].endTime <= t)
    && (t != 0 ==> exists i :: 0 <= i < |qs| && qs[i].endTime == t)
  }

  /** FirstSeen and LastSeen are the minimum and maximum of the non-zero times. */
  lemma {:induction false} ProfileTimes(qs: seq<Session>)
    requires qs != []
    ensures var p := FoldFlow(SUBSCRIBERS, qs);
            IsEarliest(p.firstSeen, qs) && IsLatest(p.lastSeen, qs)
    decreases |qs|
  {
    var front, s := qs[..|qs| - 1], qs[|qs| - 1];
    FoldIsEnrich(qs);
    if |qs| > 1 {
      ProfileTimes(front);
      TimesExtend(front, s, FoldFlow(SUBSCRIBERS, front));
      assert qs == front + [s];
    } else {
      assert front == [];
      assert qs[0] == s;
    }
  }

  lemma TimesExtend(front: seq<Session>, s: Session, p: Profile)
    requires IsEarliest(p.firstSeen, front) && IsLatest(p.lastSeen, front)
    ensures IsEarliest(Enrich(p, s).firstSeen, front + [s]) && IsLatest(Enrich(p, s).lastSeen, front + [s])
  {
    var all := front + [s];
    assert all[|front|] == s;
    assert forall i :: 0 <= i < |front| ==> all[i] == front[i];
    if p.firstSeen != 0 {
      var i :| 0 <= i < |front| && front[i].startTime == p.firstSeen;
      assert all[i].startTime == p.firstSeen;
    }
    if p.lastSeen != 0 {
      var i :| 0 <= i < |front| && front[i].endTime == p.lastSeen;
      assert all[i].endTime == p.lastSeen;
    }
  }

  /** Main profile theorem: what the registry holds for a subscriber after any history. */
  lemma SubscriberProfile(ss: seq<Session>, imsi: string)
    requires imsi in History(ss).profiles
    ensures
      var p, qs := History(ss).profiles[imsi], PacketsOf(SUBSCRIBERS, ss, imsi);
      && qs != [] && ListsExact(p, qs) && ScalarsExact(p, qs)
      && IsEarliest(p.firstSeen, qs) && IsLatest(p.lastSeen, qs)
  {
    ProfilesAreTracked(ss);
    TrackByFlow(SUBSCRIBERS, ss, imsi);
    var qs := PacketsOf(SUBSCRIBERS, ss, imsi);
    ProfileLists(qs);
    ProfileScalars(qs);
    ProfileTimes(qs);
  }
}

/** The web UI's VLAN-membership pages: a server that remembers which VLAN is on show and may answer a
    select by showing any VLAN it likes, HttpReader's read loops (http_read.py) and HttpWriter's
    read-modify-write (http_write.py) over it. Pages are taken as already parsed. */
module WebUi {
  import opened Models

  /** One VLAN on the server: its operational egress lists, and the configured code of every slot
      (physical ports first, then the LAGs). */
  datatype VlanView = VlanView(tagged: set<int>, untagged: set<int>, codes: seq<VlanMode>)

  /** A rendered page: which VLAN it says it shows (if it says), and that VLAN's views. */
  datatype Page = Page(heading: Option<int>, view: VlanView)

  datatype ApplyReply = Applied | Dropped | Refused   // Refused: err_flag is raised on the answer

  datatype WebState = WebState(onShow: int, vlans: map<int, VlanView>, selects: seq<(int, int)>)

  /** The firmware: the VLAN on show after a select or an apply, what becomes of an apply, and how pages
      are labelled. */
  datatype Firmware = Firmware(
    showAfter: (WebState, int) -> int,
    onApply: (WebState, int, seq<VlanMode>) -> ApplyReply,
    heading: int -> Option<int>)

  ghost predicate LabelsPages(fw: Firmware) {
    forall v :: fw.heading(v) == Some(v)
  }

  function ViewOf(s: WebState, vlan: int): VlanView {
    if vlan in s.vlans then s.vlans[vlan] else VlanView({}, {}, [])
  }

  function PageOf(fw: Firmware, s: WebState, vlan: int): Page { Page(fw.heading(vlan), ViewOf(s, vlan)) }

  /** A select POST (`submt=0`): it changes nothing but what is on show. */
  function Select(fw: Firmware, s: WebState, vlan: int): WebState {
    s.(onShow := fw.showAfter(s, vlan), selects := s.selects + [(s.onShow, vlan)])
  }

  function ApplyTo(s: WebState, vlan: int, codes: seq<VlanMode>): WebState {
    if vlan in s.vlans then s.(vlans := s.vlans[vlan := s.vlans[vlan].(codes := codes)]) else s
  }

  /** An apply POST (`submt=16`): whether the answer raised err_flag, and the server afterwards. */
  function Apply(fw: Firmware, s: WebState, vlan: int, codes: seq<VlanMode>): (bool, WebState) {
    var reply := fw.onApply(s, vlan, codes);
    (reply.Refused?, (if reply.Applied? then ApplyTo(s, vlan, codes) else s).(onShow := fw.showAfter(s, vlan)))
  }

  class WebSession {
    const fw: Firmware
    var s: WebState

    constructor (fw: Firmware, s: WebState)
      ensures this.fw == fw && this.s == s
    {
      this.fw, this.s := fw, s;
    }

    method Get() returns (page: Page)
      ensures page == PageOf(fw, s, s.onShow)
    {
      return PageOf(fw, s, s.onShow);
    }

    method PostSelect(vlan: int) returns (page: Page)
      modifies this
      ensures s == Select(fw, old(s), vlan) && page == PageOf(fw, s, s.onShow)
    {
      s := Select(fw, s, vlan);
      return PageOf(fw, s, s.onShow);
    }

    /** Returns whether the answer raised err_flag. */
    method PostApply(vlan: int, codes: seq<VlanMode>) returns (refused: bool)
      modifies this
      ensures (refused, s) == Apply(fw, old(s), vlan, codes)
    {
      var answer := Apply(fw, s, vlan, codes);
      refused, s := answer.0, answer.1;
    }
  }

  /** `_check_fastpath_membership_is_for`, `_check_membership_is_for`, `_require_fastpath_membership_for`. */
  predicate MayBeFor(page: Page, vlan: int) {
    page.heading.None? || page.heading.value == vlan
  }

  /** `page` is a rendering of some VLAN that does not claim to be another than `vlan`. */
  ghost predicate Attributable(fw: Firmware, s: WebState, page: Page, vlan: int) {
    exists w :: page == PageOf(fw, s, w) && MayBeFor(page, vlan)
  }

  /** On firmware that labels its pages, what may be attributed to a VLAN is that VLAN's own page. */
  lemma LabelledIsOwn(fw: Firmware, s: WebState, page: Page, vlan: int)
    requires LabelsPages(fw) && Attributable(fw, s, page, vlan)
    ensures page == PageOf(fw, s, vlan)
  {
    var w :| page == PageOf(fw, s, w) && MayBeFor(page, vlan);
    assert fw.heading(w) == Some(w);
  }

  /** What the wrong-VLAN check must achieve: a page that comes back for a select and passes is the VLAN's own. */
  ghost predicate CheckProtects(fw: Firmware, s: WebState, vlan: int) {
    var shown := Select(fw, s, vlan).onShow;
    MayBeFor(PageOf(fw, s, shown), vlan) ==> ViewOf(s, shown) == ViewOf(s, vlan)
  }

  function Labelling(show: (WebState, int) -> int, heading: int -> Option<int>): Firmware {
    Firmware(show, (s: WebState, v: int, codes: seq<VlanMode>) => Applied, heading)
  }

  /** A server holding two VLANs with nothing in common. */
  function TwoVlans(a: int, b: int): WebState {
    WebState(a, map[a := VlanView({1}, {}, [Tagged]), b := VlanView({}, {2}, [Untagged])], [])
  }

  /** The check protects every reading, whatever a server does with selects, exactly on firmware that says
      on each page which VLAN it shows. A page without a heading passes for any VLAN. */
  lemma CheckProtectsIff(heading: int -> Option<int>)
    ensures (forall show, s, vlan :: CheckProtects(Labelling(show, heading), s, vlan))
            <==> (forall v :: heading(v) == Some(v))
  {
    if v :| heading(v) != Some(v) {
      var asked := if heading(v).Some? then heading(v).value else v + 1;
      var show := (s: WebState, w: int) => v;
      assert !CheckProtects(Labelling(show, heading), TwoVlans(v, asked), asked) by {
        var s := TwoVlans(v, asked);
        assert ViewOf(s, v) == VlanView({1}, {}, [Tagged]) && ViewOf(s, asked) == VlanView({}, {2}, [Untagged]);
        assert 1 in ViewOf(s, v).tagged && 1 !in ViewOf(s, asked).tagged;
      }
    }
  }

  // ----- HttpReader.get_vlans on managed FASTPATH -----

  /** A row of the VLAN status page; names left out. */
  datatype StatusRow = StatusRow(vlanId: VlanId, members: set<int>)

  function InfoFrom(vlan: VlanId, page: Page): VlanInfo {
    VlanInfo(vlan, page.view.tagged + page.view.untagged, page.view.tagged, page.view.untagged)
  }

  /** An entry of its VLAN whose tagged and untagged ports are those one page attributable to it lists, the
      members being both. */
  ghost predicate EntryFor(fw: Firmware, s: WebState, info: VlanInfo, vlan: VlanId) {
    exists page ::
      && Attributable(fw, s, page, vlan)
      && info.vlanId == vlan && info.taggedPorts == page.view.tagged && info.untaggedPorts == page.view.untagged
      && info.memberPorts == page.view.tagged + page.view.untagged
  }

  /** An entry that lists the VLAN's own operational ports. */
  ghost predicate OwnEntry(s: WebState, info: VlanInfo, vlan: VlanId) {
    && info.vlanId == vlan
    && info.taggedPorts == ViewOf(s, vlan).tagged && info.untaggedPorts == ViewOf(s, vlan).untagged
    && info.memberPorts == info.taggedPorts + info.untaggedPorts
  }

  /** Every listed VLAN is the one on the base page or has its select honoured, each in its turn. */
  predicate AllShown(fw: Firmware, base: int, s: WebState, rows: seq<StatusRow>)
    decreases |rows|
  {
    rows == []
    || (if rows[0].vlanId == base then AllShown(fw, base, s, rows[1..])
        else fw.showAfter(s, rows[0].vlanId) == rows[0].vlanId
             && AllShown(fw, base, Select(fw, s, rows[0].vlanId), rows[1..]))
  }

  /** `_fastpath_membership`: one base GET, a select for every other VLAN. On labelled pages it succeeds exactly
      if every listed VLAN gets shown. */
  method FastpathMembership(web: WebSession, rows: seq<StatusRow>) returns (r: Result<map<int, Page>>)
    modifies web
    ensures web.s.vlans == old(web.s.vlans)
    ensures r.Ok? ==>
              && (forall i :: 0 <= i < |rows| ==> rows[i].vlanId in r.value)
              && (forall v :: v in r.value ==> Attributable(web.fw, old(web.s), r.value[v], v))
    ensures r.Err? ==> r.error == UnexpectedPage
    ensures LabelsPages(web.fw) ==> (r.Ok? <==> AllShown(web.fw, old(web.s).onShow, old(web.s), rows))
  {
    var base := web.Get();
    var pages: map<int, Page> := map[];
    assert rows[0..] == rows;
    for i := 0 to |rows|
      invariant web.s.vlans == old(web.s.vlans)
      invariant forall j :: 0 <= j < i ==> rows[j].vlanId in pages
      invariant forall v :: v in pages ==> Attributable(web.fw, old(web.s), pages[v], v)
      invariant LabelsPages(web.fw) ==>
                  (AllShown(web.fw, old(web.s).onShow, old(web.s), rows)
                   <==> AllShown(web.fw, old(web.s).onShow, web.s, rows[i..]))
    {
      var v := rows[i].vlanId;
      assert rows[i..][0] == rows[i] && rows[i..][1..] == rows[i + 1..];
      if base.heading == Some(v) {
        assert base == PageOf(web.fw, old(web.s), old(web.s).onShow);
        pages := pages[v := base];
      } else {
        var page := web.PostSelect(v);
        assert page == PageOf(web.fw, old(web.s), web.s.onShow);
        if !MayBeFor(page, v) {
          return Err(UnexpectedPage);
        }
        pages := pages[v := page];
      }
    }
    return Ok(pages);
  }

  /** get_vlans: one entry per listed VLAN, in order, each from a page attributable to it. */
  method GetVlansFastpath(web: WebSession, rows: seq<StatusRow>) returns (r: Result<seq<VlanInfo>>)
    modifies web
    ensures web.s.vlans == old(web.s.vlans)
    ensures r.Err? ==> r.error == UnexpectedPage
    ensures r.Ok? ==> |r.value| == |rows| && forall i :: 0 <= i < |rows| ==>
              EntryFor(web.fw, old(web.s), r.value[i], rows[i].vlanId)
    ensures r.Ok? && LabelsPages(web.fw) ==>
              forall i :: 0 <= i < |rows| ==> OwnEntry(old(web.s), r.value[i], rows[i].vlanId)
    ensures LabelsPages(web.fw) ==> (r.Ok? <==> AllShown(web.fw, old(web.s).onShow, old(web.s), rows))
  {
    var read := FastpathMembership(web, rows);
    if read.Err? { return Err(read.error); }
    var pages := read.value;
    var out: seq<VlanInfo> := [];
    for i := 0 to |rows|
      invariant |out| == i
      invariant forall j :: 0 <= j < i ==> out[j] == InfoFrom(rows[j].vlanId, pages[rows[j].vlanId])
    {
      out := out + [InfoFrom(rows[i].vlanId, pages[rows[i].vlanId])];
    }
    forall i | 0 <= i < |rows|
      ensures EntryFor(web.fw, old(web.s), out[i], rows[i].vlanId)
    {
      assert Attributable(web.fw, old(web.s), pages[rows[i].vlanId], rows[i].vlanId);
    }
    forall i | 0 <= i < |rows| && LabelsPages(web.fw)
      ensures OwnEntry(old(web.s), out[i], rows[i].vlanId)
    {
      LabelledIsOwn(web.fw, old(web.s), pages[rows[i].vlanId], rows[i].vlanId);
    }
    return Ok(out);
  }

  // ----- HttpReader.get_vlans on the Plus switches -----

  /** A Plus web UI: how many ports its pages show, whether they carry the CSRF hash, and whether the reader
      compares each page with the VLAN it asked for. gs305ep: hash, no check; gs105pe: both; gs110emx: neither. */
  datatype PlusUi = PlusUi(portCount: nat, hasHash: bool, checked: bool)

  function PortCode(codes: seq<VlanMode>, port: int): VlanMode {
    if 1 <= port <= |codes| then codes[port - 1] else Excluded
  }

  /** `_vlan_info`. */
  function PlusInfo(vlan: VlanId, codes: seq<VlanMode>, portCount: nat): VlanInfo {
    var tagged := set p | 1 <= p <= portCount && PortCode(codes, p) == Tagged;
    var untagged := set p | 1 <= p <= portCount && PortCode(codes, p) == Untagged;
    VlanInfo(vlan, tagged + untagged, tagged, untagged)
  }

  /** An entry says of each port what its code says, and of the ports the page does not have nothing. */
  ghost predicate SaysCodes(info: VlanInfo, vlan: VlanId, codes: seq<VlanMode>, portCount: nat) {
    && info.vlanId == vlan && portCount <= |codes|
    && (forall p :: p in info.taggedPorts <==> 1 <= p <= portCount && codes[p - 1] == Tagged)
    && (forall p :: p in info.untaggedPorts <==> 1 <= p <= portCount && codes[p - 1] == Untagged)
    && info.memberPorts == info.taggedPorts + info.untaggedPorts
  }

  lemma PlusInfoSaysCodes(vlan: VlanId, codes: seq<VlanMode>, portCount: nat)
    requires portCount <= |codes|
    ensures SaysCodes(PlusInfo(vlan, codes, portCount), vlan, codes, portCount)
  {
  }

  /** The page for one VLAN: the one already on show if the reader keeps it, else what a select brings. */
  function PageFor(fw: Firmware, base: Option<Page>, s: WebState, vlan: int): (Page, WebState) {
    if base.Some? && base.value.heading == Some(vlan) then (base.value, s)
    else
      var s1 := Select(fw, s, vlan);
      (PageOf(fw, s1, s1.onShow), s1)
  }

  function ReadRest(fw: Firmware, ui: PlusUi, base: Option<Page>, s: WebState, ids: seq<VlanId>)
    : (Result<seq<VlanInfo>>, WebState)
    decreases |ids|
  {
    if ids == [] then (Ok([]), s)
    else
      var (page, s1) := PageFor(fw, base, s, ids[0]);
      if (ui.checked && !MayBeFor(page, ids[0])) || |page.view.codes| < ui.portCount then (Err(UnexpectedPage), s1)
      else Prepend([PlusInfo(ids[0], page.view.codes, ui.portCount)], ReadRest(fw, ui, base, s1, ids[1..]))
  }

  function Prepend(out: seq<VlanInfo>, rest: (Result<seq<VlanInfo>>, WebState)): (Result<seq<VlanInfo>>, WebState) {
    (if rest.0.Ok? then Ok(out + rest.0.value) else rest.0, rest.1)
  }

  /** get_vlans as a function: entries and server afterwards. */
  function ReadPlus(fw: Firmware, ui: PlusUi, s: WebState, ids: seq<VlanId>): (Result<seq<VlanInfo>>, WebState) {
    if ui.checked && !ui.hasHash then (Err(UnexpectedPage), s)
    else ReadRest(fw, ui, if ui.checked then Some(PageOf(fw, s, s.onShow)) else None, s, ids)
  }

  /** Each VLAN's own entry, as long as pages are labelled and checked, or every select is honoured. */
  ghost predicate OwnPages(fw: Firmware, ui: PlusUi) {
    (ui.checked && LabelsPages(fw)) || (!ui.checked && forall s, v :: fw.showAfter(s, v) == v)
  }

  /** An entry whose ports come from one page that does not claim to be another VLAN's. */
  ghost predicate PlusEntryFor(fw: Firmware, ui: PlusUi, s: WebState, info: VlanInfo, vlan: VlanId) {
    exists page :: Attributable(fw, s, page, vlan) && SaysCodes(info, vlan, page.view.codes, ui.portCount)
  }

  lemma PageForRenders(fw: Firmware, base: Option<Page>, s: WebState, vlan: int) returns (w: int)
    requires base.Some? ==> exists v :: base.value == PageOf(fw, s, v)
    ensures PageFor(fw, base, s, vlan).0 == PageOf(fw, s, w)
    ensures PageFor(fw, base, s, vlan).1.vlans == s.vlans
    ensures base.Some? ==> exists v :: base.value == PageOf(fw, PageFor(fw, base, s, vlan).1, v)
  {
    if base.Some? {
      var v :| base.value == PageOf(fw, s, v);
      assert base.value == PageOf(fw, PageFor(fw, base, s, vlan).1, v);
      w := if base.value.heading == Some(vlan) then v else fw.showAfter(s, vlan);
    } else {
      w := fw.showAfter(s, vlan);
    }
  }

  lemma SameVlansSameEntries(fw: Firmware, ui: PlusUi, a: WebState, b: WebState)
    requires a.vlans == b.vlans
    ensures forall info, v: VlanId :: PlusEntryFor(fw, ui, a, info, v) ==> PlusEntryFor(fw, ui, b, info, v)
  {
    forall info, v: VlanId | PlusEntryFor(fw, ui, a, info, v) ensures PlusEntryFor(fw, ui, b, info, v) {
      var page :| Attributable(fw, a, page, v) && SaysCodes(info, v, page.view.codes, ui.portCount);
      var w :| page == PageOf(fw, a, w) && MayBeFor(page, v);
      assert page == PageOf(fw, b, w);
    }
  }

  lemma {:induction false} ReadRestIsOwn(fw: Firmware, ui: PlusUi, base: Option<Page>, s: WebState, ids: seq<VlanId>)
    requires base.Some? ==> exists w :: base.value == PageOf(fw, s, w)
    requires ui.checked <==> base.Some?
    ensures ReadRest(fw, ui, base, s, ids).1.vlans == s.vlans
    ensures var r := ReadRest(fw, ui, base, s, ids).0;
            && (r.Err? ==> r.error == UnexpectedPage)
            && (r.Ok? ==> |r.value| == |ids|)
            && (r.Ok? && ui.checked ==> forall i :: 0 <= i < |ids| ==> PlusEntryFor(fw, ui, s, r.value[i], ids[i]))
            && (r.Ok? && OwnPages(fw, ui) ==>
                  forall i :: 0 <= i < |ids| ==> SaysCodes(r.value[i], ids[i], ViewOf(s, ids[i]).codes, ui.portCount))
    decreases |ids|
  {
    if ids != [] {
      var (page, s1) := PageFor(fw, base, s, ids[0]);
      var w := PageForRenders(fw, base, s, ids[0]);
      ReadRestIsOwn(fw, ui, base, s1, ids[1..]);
      assert ui.checked && MayBeFor(page, ids[0]) ==> Attributable(fw, s, page, ids[0]);
      if |page.view.codes| >= ui.portCount { PlusInfoSaysCodes(ids[0], page.view.codes, ui.portCount); }
      SameVlansSameEntries(fw, ui, s1, s);
      if OwnPages(fw, ui) && (ui.checked ==> MayBeFor(page, ids[0])) {
        if ui.checked { LabelledIsOwn(fw, s, page, ids[0]); }
        assert page.view == ViewOf(s, ids[0]);
      }
    }
  }

  /** Unchecked pages of a server that shows VLAN `w` whatever is selected make every entry that VLAN's. */
  lemma {:induction false} ReadRestStuck(fw: Firmware, ui: PlusUi, s: WebState, ids: seq<VlanId>, w: int)
    requires !ui.checked && (forall st, v :: fw.showAfter(st, v) == w) && |ViewOf(s, w).codes| >= ui.portCount
    ensures var r := ReadRest(fw, ui, None, s, ids).0;
            r.Ok? && |r.value| == |ids| && forall i :: 0 <= i < |ids| ==>
              r.value[i] == PlusInfo(ids[i], ViewOf(s, w).codes, ui.portCount)
    decreases |ids|
  {
    if ids != [] {
      ReadRestStuck(fw, ui, PageFor(fw, None, s, ids[0]).1, ids[1..], w);
    }
  }

  ghost predicate NoRepeats(ids: seq<VlanId>) {
    forall i, j :: 0 <= i < j < |ids| ==> ids[i] != ids[j]
  }

  /** From the `from`-th on, no select asked for the VLAN that was on show. */
  ghost predicate NoReselect(selects: seq<(int, int)>, from: nat) {
    forall k :: from <= k < |selects| ==> selects[k].0 != selects[k].1
  }

  /** On checked labelled pages, a VLAN is never selected while it is on show, unless it is listed twice. */
  lemma {:induction false} ReadRestNeverReselects(fw: Firmware, ui: PlusUi, base: Page, s: WebState, ids: seq<VlanId>,
                                                  from: nat)
    requires LabelsPages(fw) && ui.checked && NoRepeats(ids) && from <= |s.selects| && NoReselect(s.selects, from)
    requires base.heading == Some(s.onShow) || s.onShow !in ids
    ensures var s' := ReadRest(fw, ui, Some(base), s, ids).1;
            s.selects <= s'.selects && NoReselect(s'.selects, from)
    decreases |ids|
  {
    if ids != [] {
      var (page, s1) := PageFor(fw, Some(base), s, ids[0]);
      assert forall i :: 0 <= i < |ids[1..]| ==> ids[1..][i] == ids[i + 1];
      if MayBeFor(page, ids[0]) && |page.view.codes| >= ui.portCount {
        ReadRestNeverReselects(fw, ui, base, s1, ids[1..], from);
      }
    }
  }

  /** The gs105pe, gs305ep and gs110emx loops. Returns normally with one entry per id, in order; on checked
      labelled pages each is that VLAN's own, and a VLAN is selected while on show only if it is listed twice. */
  method GetVlansPlus(web: WebSession, ui: PlusUi, ids: seq<VlanId>) returns (r: Result<seq<VlanInfo>>)
    modifies web
    ensures (r, web.s) == ReadPlus(web.fw, ui, old(web.s), ids)
    ensures web.s.vlans == old(web.s.vlans)
    ensures r.Err? ==> r.error == UnexpectedPage
    ensures r.Ok? ==> |r.value| == |ids|
    ensures r.Ok? && ui.checked ==> forall i :: 0 <= i < |ids| ==>
              PlusEntryFor(web.fw, ui, old(web.s), r.value[i], ids[i])
    ensures r.Ok? && OwnPages(web.fw, ui) ==>
              forall i :: 0 <= i < |ids| ==>
                SaysCodes(r.value[i], ids[i], ViewOf(old(web.s), ids[i]).codes, ui.portCount)
    ensures ui.checked && LabelsPages(web.fw) && NoRepeats(ids) ==>
              old(web.s.selects) <= web.s.selects && NoReselect(web.s.selects, |old(web.s.selects)|)
  {
    var base: Option<Page> := None;
    if ui.checked {
      var page := web.Get();
      if !ui.hasHash { return Err(UnexpectedPage); }
      base := Some(page);
      if LabelsPages(web.fw) && NoRepeats(ids) {
        ReadRestNeverReselects(web.fw, ui, page, web.s, ids, |web.s.selects|);
      }
    }
    ReadRestIsOwn(web.fw, ui, base, web.s, ids);
    r := ReadLoop(web, ui, base, ids);
  }

  method ReadLoop(web: WebSession, ui: PlusUi, base: Option<Page>, ids: seq<VlanId>) returns (r: Result<seq<VlanInfo>>)
    modifies web
    ensures (r, web.s) == ReadRest(web.fw, ui, base, old(web.s), ids)
  {
    var out: seq<VlanInfo> := [];
    assert ids[0..] == ids;
    PrependNothing(ReadRest(web.fw, ui, base, web.s, ids));
    for i := 0 to |ids|
      invariant ReadRest(web.fw, ui, base, old(web.s), ids) == Prepend(out, ReadRest(web.fw, ui, base, web.s, ids[i..]))
    {
      assert ids[i..][0] == ids[i] && ids[i..][1..] == ids[i + 1..];
      var page;
      if base.Some? && base.value.heading == Some(ids[i]) {
        page := base.value;
      } else {
        page := web.PostSelect(ids[i]);
      }
      if (ui.checked && !MayBeFor(page, ids[i])) || |page.view.codes| < ui.portCount { return Err(UnexpectedPage); }
      PrependTwice(out, PlusInfo(ids[i], page.view.codes, ui.portCount),
                   ReadRest(web.fw, ui, base, web.s, ids[i + 1..]));
      out := out + [PlusInfo(ids[i], page.view.codes, ui.portCount)];
    }
    assert out + [] == out;
    return Ok(out);
  }

  lemma PrependNothing(rest: (Result<seq<VlanInfo>>, WebState))
    ensures Prepend([], rest) == rest
  {
    if rest.0.Ok? { assert [] + rest.0.value == rest.0.value; }
  }

  lemma PrependTwice(out: seq<VlanInfo>, info: VlanInfo, rest: (Result<seq<VlanInfo>>, WebState))
    ensures Prepend(out, Prepend([info], rest)) == Prepend(out + [info], rest)
  {
    if rest.0.Ok? { assert out + ([info] + rest.0.value) == out + [info] + rest.0.value; }
  }

  // ----- HttpWriter._set_fastpath_membership -----

  /** `_read_fastpath_membership`, and `read_fastpath_membership` of the reader. */
  function ReadFor(fw: Firmware, s: WebState, vlan: int): (Result<Page>, WebState) {
    var page := PageOf(fw, s, s.onShow);
    if page.heading == Some(vlan) then (Ok(page), s)
    else
      var s1 := Select(fw, s, vlan);
      var shown := PageOf(fw, s1, s1.onShow);
      (if MayBeFor(shown, vlan) then Ok(shown) else Err(UnexpectedPage), s1)
  }

  /** On labelled pages the reading succeeds exactly when the VLAN is on show or the select is honoured, and
      then it is the VLAN's own page. */
  lemma ReadForIff(fw: Firmware, s: WebState, vlan: int)
    ensures ReadFor(fw, s, vlan).1.vlans == s.vlans
    ensures ReadFor(fw, s, vlan).0.Err? ==> ReadFor(fw, s, vlan).0.error == UnexpectedPage
    ensures LabelsPages(fw) ==>
              && (ReadFor(fw, s, vlan).0.Ok? <==> s.onShow == vlan || fw.showAfter(s, vlan) == vlan)
              && (ReadFor(fw, s, vlan).0.Ok? ==> ReadFor(fw, s, vlan).0.value == PageOf(fw, s, vlan))
  {
  }

  /** The state an apply of a page's codes, with one slot moved, leaves behind. */
  function OneSlotMoved(s: WebState, vlan: int, codes: seq<VlanMode>, slot: nat, mode: VlanMode): map<int, VlanView>
    requires slot < |codes|
  {
    ApplyTo(s, vlan, codes[slot := mode]).vlans
  }

  /** The write as a function. `slots` maps the ports the page's grid renders to their hiddenMem slots. */
  function WriteFastpath(fw: Firmware, s: WebState, slots: map<int, nat>, protectedPorts: set<int>,
                         vlan: int, port: int, mode: VlanMode, force: bool): (Result<()>, WebState) {
    if port in protectedPorts && !force then (Err(ProtectedPort), s)
    else
      var (read, s1) := ReadFor(fw, s, vlan);
      if read.Err? then (Err(read.error), s1)
      else if port !in slots || slots[port] >= |read.value.view.codes| then (Err(UnexpectedPage), s1)
      else
        var (refused, s2) := Apply(fw, s1, vlan, read.value.view.codes[slots[port] := mode]);
        if refused then (Err(Rejected), s2)
        else
          var (again, s3) := ReadFor(fw, s2, vlan);
          if again.Err? then (Err(again.error), s3)
          else if slots[port] >= |again.value.view.codes| then (Err(UnexpectedPage), s3)
          else if again.value.view.codes[slots[port]] != mode then (Err(VerificationFailed), s3)
          else (Ok(()), s3)
  }

  /** Firmware that labels its pages, shows what is selected and applies what is sent. */
  ghost predicate Cooperates(fw: Firmware) {
    && LabelsPages(fw)
    && (forall s, v :: fw.showAfter(s, v) == v)
    && (forall s, v, codes :: fw.onApply(s, v, codes) == Applied)
  }

  /** On labelled pages exactly the requested slot of the requested VLAN moves, LAG slots included in
      "nothing else", or nothing does; a normal return means it moved. */
  lemma FastpathMovesOneSlot(fw: Firmware, s: WebState, slots: map<int, nat>, protectedPorts: set<int>,
                             vlan: int, port: int, mode: VlanMode, force: bool)
    requires LabelsPages(fw)
    ensures var (r, s') := WriteFastpath(fw, s, slots, protectedPorts, vlan, port, mode, force);
            var own := ViewOf(s, vlan).codes;
            && (s'.vlans == s.vlans
                || (port in slots && slots[port] < |own| && s'.vlans == OneSlotMoved(s, vlan, own, slots[port], mode)))
            && (r.Ok? ==>
                  port in slots && slots[port] < |own| && s'.vlans == OneSlotMoved(s, vlan, own, slots[port], mode))
            && (port !in protectedPorts || force || s' == s)
  {
    ReadForIff(fw, s, vlan);
    var (read, s1) := ReadFor(fw, s, vlan);
    if (port !in protectedPorts || force) && read.Ok? && port in slots && slots[port] < |read.value.view.codes| {
      var own := ViewOf(s, vlan).codes;
      var s2 := Apply(fw, s1, vlan, own[slots[port] := mode]).1;
      ReadForIff(fw, s2, vlan);
      var again := ReadFor(fw, s2, vlan).0;
      if again.Ok? && s2.vlans == s.vlans && vlan in s.vlans && own[slots[port]] == mode {
        assert own[slots[port] := mode] == own;
        assert s.vlans[vlan := s.vlans[vlan].(codes := own)] == s.vlans;
      }
    }
  }

  /** A select that is not honoured, on labelled pages, and a reply that raises err_flag, on any, always end
      in an error with every VLAN untouched. */
  lemma FastpathRefusalsUntouched(fw: Firmware, s: WebState, slots: map<int, nat>, protectedPorts: set<int>,
                                  vlan: int, port: int, mode: VlanMode, force: bool)
    ensures var (r, s') := WriteFastpath(fw, s, slots, protectedPorts, vlan, port, mode, force);
            && (LabelsPages(fw) && s.onShow != vlan && fw.showAfter(s, vlan) != vlan ==> r.Err? && s'.vlans == s.vlans)
            && ((forall st, codes :: fw.onApply(st, vlan, codes) == Refused) ==> r.Err? && s'.vlans == s.vlans)
            && (r == Err(Rejected) ==> s'.vlans == s.vlans)
  {
    ReadForIff(fw, s, vlan);
  }

  /** On any firmware the write returns normally exactly if it is let past the guard, both readings pass the
      check and have the port's slot, the apply is not refused, and the page read last has the code as asked. */
  lemma FastpathOkIff(fw: Firmware, s: WebState, slots: map<int, nat>, protectedPorts: set<int>,
                      vlan: int, port: int, mode: VlanMode, force: bool)
    ensures var (r, s') := WriteFastpath(fw, s, slots, protectedPorts, vlan, port, mode, force);
            var (read, s1) := ReadFor(fw, s, vlan);
            var begun := (port !in protectedPorts || force) && read.Ok? && port in slots
                && slots[port] < |read.value.view.codes|;
            var last := ViewOf(s', s'.onShow).codes;
            && (r.Ok? ==> begun && MayBeFor(PageOf(fw, s', s'.onShow), vlan))
            && (r.Ok? ==> slots[port] < |last| && last[slots[port]] == mode)
            && (begun ==> (r == Err(Rejected)
                           <==> fw.onApply(s1, vlan, read.value.view.codes[slots[port] := mode]) == Refused))
            && (r == Err(VerificationFailed) ==> begun && slots[port] < |last| && last[slots[port]] != mode)
            && (begun && r != Err(Rejected) && MayBeFor(PageOf(fw, s', s'.onShow), vlan) && slots[port] < |last| ==>
                  r == if last[slots[port]] == mode then Ok(()) else Err(VerificationFailed))
            && (r == Err(ProtectedPort) <==> port in protectedPorts && !force)
  {
  }

  lemma FastpathSucceeds(fw: Firmware, s: WebState, slots: map<int, nat>, protectedPorts: set<int>,
                         vlan: int, port: int, mode: VlanMode, force: bool)
    requires Cooperates(fw) && (port !in protectedPorts || force)
    requires port in slots && vlan in s.vlans && slots[port] < |s.vlans[vlan].codes|
    ensures WriteFastpath(fw, s, slots, protectedPorts, vlan, port, mode, force).0.Ok?
  {
    ReadForIff(fw, s, vlan);
    var s1 := ReadFor(fw, s, vlan).1;
    ReadForIff(fw, Apply(fw, s1, vlan, s.vlans[vlan].codes[slots[port] := mode]).1, vlan);
  }

  /** On this table the write moves at most the requested slot of the requested VLAN. */
  ghost predicate FastpathConfined(fw: Firmware, slots: map<int, nat>, width: nat, onShow: int,
                                   vlans: map<int, VlanView>, vlan: int, port: int, mode: VlanMode) {
    var s := WebState(onShow, vlans, []);
    (vlan in vlans && (forall v :: v in vlans ==> |vlans[v].codes| == width) && port in slots
     && slots[port] < width) ==>
      var after := WriteFastpath(fw, s, slots, {}, vlan, port, mode, false).1.vlans;
      after == vlans || after == OneSlotMoved(s, vlan, vlans[vlan].codes, slots[port], mode)
  }

  /** The VLAN whose page the write takes for the requested one's, if it takes any: the one on show if its page
      says so, else what the select brings, unless its page names another. */
  function TakenFor(policy: (int, int) -> int, heading: int -> Option<int>, onShow: int, vlan: int): Option<int> {
    if heading(onShow) == Some(vlan) then Some(onShow)
    else if heading(policy(onShow, vlan)) in {None, Some(vlan)} then Some(policy(onShow, vlan))
    else None
  }

  /** Whatever the membership tables hold, and however pages are labelled, the FASTPATH write moves no slot but
      the requested one if and only if it takes no other VLAN's page for the requested one's. */
  lemma FastpathConfinedIff(policy: (int, int) -> int, heading: int -> Option<int>, slots: map<int, nat>, width: nat,
                            onShow: int, vlan: int, port: int)
    requires port in slots && slots[port] < width && width >= 2
    ensures (forall vlans, mode ::
               FastpathConfined(Applying(policy, heading), slots, width, onShow, vlans, vlan, port, mode))
       <==> TakenFor(policy, heading, onShow, vlan) in {None, Some(vlan)}
  {
    var fw, taken := Applying(policy, heading), TakenFor(policy, heading, onShow, vlan);
    if taken in {None, Some(vlan)} {
      forall vlans, mode ensures FastpathConfined(fw, slots, width, onShow, vlans, vlan, port, mode) {
        FastpathConfinedWhenOwn(policy, heading, slots, width, onShow, vlans, vlan, port, mode);
      }
    } else {
      FastpathStripsWhenNot(policy, heading, slots, width, onShow, vlan, port);
    }
  }

  /** What the first reading of a write takes for the VLAN's page. */
  lemma TakenIsRead(policy: (int, int) -> int, heading: int -> Option<int>, s: WebState, vlan: int)
    ensures var (read, s1) := ReadFor(Applying(policy, heading), s, vlan);
            var taken := TakenFor(policy, heading, s.onShow, vlan);
            && s1.vlans == s.vlans && (read.Ok? <==> taken.Some?)
            && (read.Ok? ==> read.value.view == ViewOf(s, taken.value))
  {
  }

  /** An applied write leaves the table with the codes it sent, whatever its second reading makes of them. */
  lemma FastpathLeaves(policy: (int, int) -> int, heading: int -> Option<int>, s: WebState, slots: map<int, nat>,
                       vlan: int, port: int, mode: VlanMode)
    ensures var after := WriteFastpath(Applying(policy, heading), s, slots, {}, vlan, port, mode, false).1.vlans;
            var taken := TakenFor(policy, heading, s.onShow, vlan);
            after == if taken.Some? && port in slots && slots[port] < |ViewOf(s, taken.value).codes|
                     then OneSlotMoved(s, vlan, ViewOf(s, taken.value).codes, slots[port], mode) else s.vlans
  {
    var fw := Applying(policy, heading);
    TakenIsRead(policy, heading, s, vlan);
    var (read, s1) := ReadFor(fw, s, vlan);
    if read.Ok? && port in slots && slots[port] < |read.value.view.codes| {
      var s2 := Apply(fw, s1, vlan, read.value.view.codes[slots[port] := mode]).1;
      ReadForIff(fw, s2, vlan);
    }
  }

  lemma FastpathConfinedWhenOwn(policy: (int, int) -> int, heading: int -> Option<int>, slots: map<int, nat>,
                                width: nat,
                                onShow: int, vlans: map<int, VlanView>, vlan: int, port: int, mode: VlanMode)
    requires TakenFor(policy, heading, onShow, vlan) in {None, Some(vlan)}
    ensures FastpathConfined(Applying(policy, heading), slots, width, onShow, vlans, vlan, port, mode)
  {
    FastpathLeaves(policy, heading, WebState(onShow, vlans, []), slots, vlan, port, mode);
  }

  lemma FastpathStripsWhenNot(policy: (int, int) -> int, heading: int -> Option<int>, slots: map<int, nat>, width: nat,
                              onShow: int, vlan: int, port: int)
    requires port in slots && slots[port] < width && width >= 2
    requires TakenFor(policy, heading, onShow, vlan) !in {None, Some(vlan)}
    ensures var other := TakenFor(policy, heading, onShow, vlan).value;
            !FastpathConfined(Applying(policy, heading), slots, width, onShow, FullAndEmpty(width, vlan, other), vlan,
                              port, Untagged)
  {
    var other := TakenFor(policy, heading, onShow, vlan).value;
    var vlans := FullAndEmpty(width, vlan, other);
    var s := WebState(onShow, vlans, []);
    FastpathLeaves(policy, heading, s, slots, vlan, port, Untagged);
    var after := OneSlotMoved(s, vlan, vlans[other].codes, slots[port], Untagged);
    var elsewhere := if slots[port] == 0 then 1 else 0;
    assert after[vlan].codes[elsewhere] == Excluded && vlans[vlan].codes[elsewhere] == Tagged;
    assert OneSlotMoved(s, vlan, vlans[vlan].codes, slots[port], Untagged)[vlan].codes[elsewhere] == Tagged;
  }

  /** Pages that name no VLAN, on a server that keeps showing VLAN 1: asked to untag port 2 in VLAN 20, the write
      returns normally, and protected port 5 has lost its tagged membership of VLAN 20. */
  lemma FastpathWriteCanStrip()
    ensures var fw := Applying((onShow: int, v: int) => 1, (v: int) => None);
            var s := WebState(1, map[1 := VlanView({}, {}, [Untagged, Untagged, Untagged, Untagged, Excluded]),
                                     20 := VlanView({}, {}, [Excluded, Excluded, Excluded, Excluded, Tagged])], []);
            var slots: map<int, nat> := map[1 := 0, 2 := 1, 3 := 2, 4 := 3, 5 := 4];
            var (r, s') := WriteFastpath(fw, s, slots, {5}, 20, 2, Untagged, false);
            r.Ok? && s'.vlans[20].codes == [Untagged, Untagged, Untagged, Untagged, Excluded]
  {
    var codes := [Untagged, Untagged, Untagged, Untagged, Excluded];
    assert codes[1 := Untagged] == codes;
  }

  method ReadPage(web: WebSession, vlan: int) returns (r: Result<Page>)
    modifies web
    ensures (r, web.s) == ReadFor(web.fw, old(web.s), vlan)
    ensures LabelsPages(web.fw) ==> (r.Ok? <==> old(web.s).onShow == vlan || web.fw.showAfter(old(web.s), vlan) == vlan)
  {
    var page := web.Get();
    if page.heading == Some(vlan) { return Ok(page); }
    page := web.PostSelect(vlan);
    if !MayBeFor(page, vlan) { return Err(UnexpectedPage); }
    return Ok(page);
  }

  method SetFastpathMembership(web: WebSession, slots: map<int, nat>, protectedPorts: set<int>,
                               vlan: int, port: int, mode: VlanMode, force: bool)
    returns (r: Result<()>)
    modifies web
    ensures (r, web.s) == WriteFastpath(web.fw, old(web.s), slots, protectedPorts, vlan, port, mode, force)
    ensures port in protectedPorts && !force ==> r == Err(ProtectedPort) && web.s == old(web.s)
    ensures LabelsPages(web.fw) && old(web.s).onShow != vlan && web.fw.showAfter(old(web.s), vlan) != vlan ==>
              r.Err? && web.s.vlans == old(web.s).vlans
    ensures (forall st, codes :: web.fw.onApply(st, vlan, codes) == Refused) ==>
              r.Err? && web.s.vlans == old(web.s).vlans
    ensures LabelsPages(web.fw) && r.Ok? ==>
              && port in slots && slots[port] < |ViewOf(old(web.s), vlan).codes|
              && web.s.vlans == OneSlotMoved(old(web.s), vlan, ViewOf(old(web.s), vlan).codes, slots[port], mode)
  {
    FastpathRefusalsUntouched(web.fw, web.s, slots, protectedPorts, vlan, port, mode, force);
    if LabelsPages(web.fw) { FastpathMovesOneSlot(web.fw, web.s, slots, protectedPorts, vlan, port, mode, force); }
    if port in protectedPorts && !force { return Err(ProtectedPort); }
    var read := ReadPage(web, vlan);
    if read.Err? { return Err(read.error); }
    var before := read.value;
    if port !in slots || slots[port] >= |before.view.codes| { return Err(UnexpectedPage); }
    var refused := web.PostApply(vlan, before.view.codes[slots[port] := mode]);
    if refused { return Err(Rejected); }
    read := ReadPage(web, vlan);
    if read.Err? { return Err(read.error); }
    var after := read.value;
    if slots[port] >= |after.view.codes| { return Err(UnexpectedPage); }
    return if after.view.codes[slots[port]] != mode then Err(VerificationFailed) else Ok(());
  }

  // ----- HttpWriter.set_vlan_membership on the Plus switches -----

  /** `membership_hidden_mem` of a page's states with one of them replaced. */
  function CodesWith(codes: seq<VlanMode>, portCount: nat, port: int, mode: VlanMode): seq<VlanMode>
    requires portCount <= |codes|
  {
    if 1 <= port <= portCount then codes[..portCount][port - 1 := mode] else codes[..portCount]
  }

  /** The write as a function. The Plus dialects select the VLAN without a CSRF hash and never ask which
      VLAN came back; what an apply answers is not looked at. */
  function WritePlus(fw: Firmware, ui: PlusUi, s: WebState, protectedPorts: set<int>,
                     vlan: int, port: int, mode: VlanMode, force: bool): (Result<()>, WebState) {
    if port in protectedPorts && !force then (Err(ProtectedPort), s)
    else
      var s1 := Select(fw, s, vlan);
      var shown := ViewOf(s1, s1.onShow).codes;
      if |shown| < ui.portCount || !ui.hasHash then (Err(UnexpectedPage), s1)
      else
        var s2 := Apply(fw, s1, vlan, CodesWith(shown, ui.portCount, port, mode)).1;
        var s3 := Select(fw, s2, vlan);
        var after := ViewOf(s3, s3.onShow).codes;
        if |after| < ui.portCount then (Err(UnexpectedPage), s3)
        else if 1 <= port <= ui.portCount && after[port - 1] == mode then (Ok(()), s3)
        else (Err(VerificationFailed), s3)
  }

  /** On any firmware the Plus write returns normally exactly if it is let past the guard, its first page has
      all ports and the hash, and the VLAN on show at the end has the port's code as asked. */
  lemma PlusOkIff(fw: Firmware, ui: PlusUi, s: WebState, protectedPorts: set<int>,
                  vlan: int, port: int, mode: VlanMode, force: bool)
    ensures var (r, s') := WritePlus(fw, ui, s, protectedPorts, vlan, port, mode, force);
            var first, last := ViewOf(s, fw.showAfter(s, vlan)).codes, ViewOf(s', s'.onShow).codes;
            var begun := (port !in protectedPorts || force) && |first| >= ui.portCount && ui.hasHash;
            && (r.Ok? <==> begun && |last| >= ui.portCount && 1 <= port <= ui.portCount && last[port - 1] == mode)
            && (r == Err(ProtectedPort) <==> port in protectedPorts && !force)
            && (r == Err(UnexpectedPage) <==> (port !in protectedPorts || force) && !(begun && |last| >= ui.portCount))
            && (r.Ok? || r.error in {ProtectedPort, UnexpectedPage, VerificationFailed})
  {
  }

  /** A server that honours selects and drops the apply: reported as failed, unless the port was so already. */
  lemma PlusDroppedApplyFails(fw: Firmware, ui: PlusUi, s: WebState, vlan: int, port: int, mode: VlanMode)
    requires (forall st, v :: fw.showAfter(st, v) == v) && (forall st, v, codes :: fw.onApply(st, v, codes) == Dropped)
    requires ui.hasHash && |ViewOf(s, vlan).codes| >= ui.portCount && 1 <= port <= ui.portCount
    ensures var (r, s') := WritePlus(fw, ui, s, {}, vlan, port, mode, false);
            && s'.vlans == s.vlans
            && r == if ViewOf(s, vlan).codes[port - 1] == mode then Ok(()) else Err(VerificationFailed)
  {
  }

  /** A server that honours selects and applies what it is sent lets the write of any of its ports succeed. */
  lemma PlusSucceeds(fw: Firmware, ui: PlusUi, s: WebState, vlan: int, port: int, mode: VlanMode)
    requires (forall st, v :: fw.showAfter(st, v) == v) && (forall st, v, codes :: fw.onApply(st, v, codes) == Applied)
    requires ui.hasHash && vlan in s.vlans && |s.vlans[vlan].codes| == ui.portCount && 1 <= port <= ui.portCount
    ensures var (r, s') := WritePlus(fw, ui, s, {}, vlan, port, mode, false);
            r.Ok? && s'.vlans == OneSlotMoved(s, vlan, s.vlans[vlan].codes, port - 1, mode)
  {
    var codes := s.vlans[vlan].codes;
    assert codes[..ui.portCount] == codes;
  }

  method SetPlusMembership(web: WebSession, ui: PlusUi, protectedPorts: set<int>,
                           vlan: int, port: int, mode: VlanMode, force: bool) returns (r: Result<()>)
    modifies web
    ensures (r, web.s) == WritePlus(web.fw, ui, old(web.s), protectedPorts, vlan, port, mode, force)
    ensures r.Ok? ==>
              1 <= port <= ui.portCount <= |ViewOf(web.s, web.s.onShow).codes|
              && ViewOf(web.s, web.s.onShow).codes[port - 1] == mode
  {
    if port in protectedPorts && !force { return Err(ProtectedPort); }
    var page := web.PostSelect(vlan);
    if |page.view.codes| < ui.portCount || !ui.hasHash { return Err(UnexpectedPage); }
    var _ := web.PostApply(vlan, CodesWith(page.view.codes, ui.portCount, port, mode));
    var verify := web.PostSelect(vlan);
    if |verify.view.codes| < ui.portCount { return Err(UnexpectedPage); }
    return if 1 <= port <= ui.portCount && verify.view.codes[port - 1] == mode then Ok(()) else Err(VerificationFailed);
  }

  /** A firmware that applies what it is sent, and shows after a select what `policy` makes of the VLAN on
      show and the one asked for. */
  function Applying(policy: (int, int) -> int, heading: int -> Option<int>): Firmware {
    Firmware((s: WebState, v: int) => policy(s.onShow, v),
             (s: WebState, v: int, codes: seq<VlanMode>) => Applied, heading)
  }

  /** On this table the write moves exactly the requested slot of the requested VLAN. */
  ghost predicate PlusMovesOneSlot(fw: Firmware, ui: PlusUi, onShow: int, vlans: map<int, VlanView>,
                                   vlan: int, port: int, mode: VlanMode) {
    var s := WebState(onShow, vlans, []);
    (vlan in vlans && (forall v :: v in vlans ==> |vlans[v].codes| == ui.portCount) && 1 <= port <= ui.portCount) ==>
      WritePlus(fw, ui, s, {}, vlan, port, mode, false).1.vlans
      == OneSlotMoved(s, vlan, vlans[vlan].codes, port - 1, mode)
  }

  lemma PlusFaithfulWhenHonoured(policy: (int, int) -> int, heading: int -> Option<int>, ui: PlusUi, onShow: int,
                                 vlans: map<int, VlanView>, vlan: int, port: int, mode: VlanMode)
    requires ui.hasHash && policy(onShow, vlan) == vlan
    ensures PlusMovesOneSlot(Applying(policy, heading), ui, onShow, vlans, vlan, port, mode)
  {
    if vlan in vlans && |vlans[vlan].codes| == ui.portCount && 1 <= port <= ui.portCount {
      var codes := vlans[vlan].codes;
      assert codes[..ui.portCount] == codes;
    }
  }

  /** Whatever the membership tables hold, the Plus write moves only the requested slot if and only if the
      VLAN shown after its select is the one asked for: where pages are labelled, if and only if the page
      passes the check the writer does not make. */
  lemma PlusWriteFaithfulIff(policy: (int, int) -> int, heading: int -> Option<int>, ui: PlusUi, onShow: int, vlan: int)
    requires ui.hasHash && ui.portCount >= 2
    ensures var fw := Applying(policy, heading);
            && ((forall vlans, port, mode :: PlusMovesOneSlot(fw, ui, onShow, vlans, vlan, port, mode))
                <==> policy(onShow, vlan) == vlan)
            && (LabelsPages(fw) ==>
                  forall s: WebState :: s.onShow == onShow ==>
                    (MayBeFor(PageOf(fw, s, fw.showAfter(s, vlan)), vlan) <==> policy(onShow, vlan) == vlan))
  {
    var fw := Applying(policy, heading);
    var shown := policy(onShow, vlan);
    if shown == vlan {
      forall vlans, port, mode ensures PlusMovesOneSlot(fw, ui, onShow, vlans, vlan, port, mode) {
        PlusFaithfulWhenHonoured(policy, heading, ui, onShow, vlans, vlan, port, mode);
      }
    } else {
      PlusStripsWhenNot(policy, heading, ui, onShow, vlan);
    }
  }

  /** Every port of `vlan` tagged, no port of `other` in it. */
  function FullAndEmpty(n: nat, vlan: int, other: int): map<int, VlanView> {
    map[vlan := VlanView({}, {}, seq(n, _ => Tagged)), other := VlanView({}, {}, seq(n, _ => Excluded))]
  }

  lemma PlusStripsWhenNot(policy: (int, int) -> int, heading: int -> Option<int>, ui: PlusUi, onShow: int, vlan: int)
    requires ui.hasHash && ui.portCount >= 2 && policy(onShow, vlan) != vlan
    ensures !PlusMovesOneSlot(Applying(policy, heading), ui, onShow,
                              FullAndEmpty(ui.portCount, vlan, policy(onShow, vlan)), vlan, 1, Untagged)
  {
    var fw, n, shown := Applying(policy, heading), ui.portCount, policy(onShow, vlan);
    var vlans := FullAndEmpty(n, vlan, shown);
    var s := WebState(onShow, vlans, []);
    var after := WritePlus(fw, ui, s, {}, vlan, 1, Untagged, false).1.vlans;
    assert after[vlan].codes[1] == Excluded;
    assert OneSlotMoved(s, vlan, vlans[vlan].codes, 0, Untagged)[vlan].codes[1] == Tagged;
  }

  /** A five-port switch that keeps showing VLAN 1: asked to untag port 2 in VLAN 20, the write returns
      normally, and port 5, which may be protected, has lost its tagged membership of VLAN 20. */
  lemma PlusWriteCanStrip()
    ensures var fw := Applying((onShow: int, v: int) => 1, (v: int) => Some(v));
            var s := WebState(1, map[1 := VlanView({}, {}, [Untagged, Untagged, Untagged, Untagged, Excluded]),
                                     20 := VlanView({}, {}, [Excluded, Excluded, Excluded, Excluded, Tagged])], []);
            var (r, s') := WritePlus(fw, PlusUi(5, true, true), s, {5}, 20, 2, Untagged, false);
            r.Ok? && s'.vlans[20].codes == [Untagged, Untagged, Untagged, Untagged, Excluded]
  {
    var codes := [Untagged, Untagged, Untagged, Untagged, Excluded];
    assert codes[..5][1 := Untagged] == codes;
  }
}

/**
 CdsResourceManager::addResources: the transcoding profiles that apply to an item add
 resources at the front or the back of its list, and the list is then rendered with
 resource IDs that must still be those of the stored list.
 */
module ResourceList {
  import opened Wrappers

  datatype FourCCMode = FccNone | FccProcess | FccIgnore

  datatype Profile = Profile(name: string, theora: bool, onlyDVD: bool, mode: FourCCMode, fourccs: seq<string>,
                             hideOriginal: bool, first: bool)

  /** The content type the item's mime type maps to, as far as the profiles care. */
  datatype Content = Ogg | Avi | Other

  datatype Info = Info(content: Content, theora: bool, dvdImage: bool)

  /** What a resource is rendered as: plain, an external thumbnail or external album art with its
      own URL, or album art kept with the item. */
  datatype Role = Plain | ExternalThumbnail(url: string) | ExternalArt(url: string) | Art

  datatype Resource = Resource(content: string, fourcc: string, transcoded: bool, role: Role)

  function Transcoded(p: Profile): Resource {
    Resource(p.name, "", true, Plain)
  }

  /** The tests of the profile loop; the fourcc is the one of resource 0. */
  predicate Accepts(info: Info, p: Profile, fourcc: string) {
    && (info.content.Ogg? ==> info.theora == p.theora)
    && (info.content.Avi? && !p.mode.FccNone? ==>
          if fourcc == "" then !p.mode.FccProcess?
          else (p.mode.FccProcess? ==> fourcc in p.fourccs) && (p.mode.FccIgnore? ==> fourcc !in p.fourccs))
    && (p.onlyDVD ==> info.dvdImage)
  }

  predicate NeedsFourcc(info: Info, p: Profile) {
    info.content.Avi? && !p.mode.FccNone?
  }

  /** The profile needs resource 0: for its fourcc, or to copy from it. */
  predicate ReadsFirst(info: Info, p: Profile) {
    NeedsFourcc(info, p) || Accepts(info, p, "")
  }

  /** The fourcc of resource 0, if there is a resource. */
  function FourccOf(rs: seq<Resource>): string {
    if rs == [] then "" else rs[0].fourcc
  }

  /** The profiles that add a resource. Once one has been put in front, resource 0 has no fourcc. */
  function Accepted(info: Info, ps: seq<Profile>, fourcc: string): (r: seq<Profile>)
    ensures |r| <= |ps| && forall p :: p in r ==> p in ps
    decreases |ps|
  {
    if ps == [] then []
    else if Accepts(info, ps[0], fourcc) then
      [ps[0]] + Accepted(info, ps[1..], if ps[0].first then "" else fourcc)
    else Accepted(info, ps[1..], fourcc)
  }

  /** The transcoded resources of the profiles that ask for the front, last one first. */
  function Front(ps: seq<Profile>): (r: seq<Resource>)
    ensures forall x :: x in r ==> x.transcoded
    ensures |r| <= |ps|
  {
    if ps == [] then []
    else
      var p := ps[|ps| - 1];
      if p.first then [Transcoded(p)] + Front(ps[..|ps| - 1]) else Front(ps[..|ps| - 1])
  }

  function Back(ps: seq<Profile>): (r: seq<Resource>)
    ensures forall x :: x in r ==> x.transcoded
  {
    if ps == [] then []
    else
      var p := ps[|ps| - 1];
      if p.first then Back(ps[..|ps| - 1]) else Back(ps[..|ps| - 1]) + [Transcoded(p)]
  }

  /** The final list: front profiles reversed, the stored resources in their order, the other profiles. */
  function Final(stored: seq<Resource>, accepted: seq<Profile>): seq<Resource> {
    Front(accepted) + stored + Back(accepted)
  }

  function HidesOriginal(ps: seq<Profile>): bool {
    exists p :: p in ps && p.hideOriginal
  }

  // ----- rendering -----

  /** How a URL identifies its resource. */
  datatype Url = WithId(id: nat) | Bare | TranscodeUrl | Own(url: string)

  datatype Rendered = Res(resource: Resource, url: Url) | AlbumArtUri(resource: Resource, url: Url)

  /** The stored resources among the first n: realCount. */
  function RealCount(rs: seq<Resource>, n: nat): (r: nat)
    requires n <= |rs|
    ensures r <= n
  {
    if n == 0 then 0 else RealCount(rs, n - 1) + (if rs[n - 1].transcoded then 0 else 1)
  }

  function UrlAt(rs: seq<Resource>, i: nat, addResID: bool): Url
    requires i < |rs|
  {
    if i > 0 && (rs[i].role.ExternalThumbnail? || rs[i].role.ExternalArt?) then Own(rs[i].role.url)
    else if rs[i].transcoded then TranscodeUrl
    else if addResID then WithId(RealCount(rs, i))
    else Bare
  }

  predicate IsArt(rs: seq<Resource>, i: nat)
    requires i < |rs|
  {
    i > 0 && (rs[i].role.Art? || rs[i].role.ExternalArt?)
  }

  /** The external URL of a thumbnail is missing: the rendering throws. */
  predicate BrokenAt(rs: seq<Resource>, i: nat)
    requires i < |rs|
  {
    UrlAt(rs, i, true) == Own("")
  }

  predicate Hidden(rs: seq<Resource>, i: nat, hiding: bool, original: nat)
    requires i < |rs|
  {
    hiding && !rs[i].transcoded && original == i
  }

  /** What resource i adds to the output. */
  function RenderAt(rs: seq<Resource>, i: nat, addResID: bool, hiding: bool, original: nat): seq<Rendered>
    requires i < |rs|
  {
    if IsArt(rs, i) then [AlbumArtUri(rs[i], UrlAt(rs, i, addResID))]
    else if Hidden(rs, i, hiding, original) then []
    else [Res(rs[i], UrlAt(rs, i, addResID))]
  }

  function Render(rs: seq<Resource>, n: nat, addResID: bool, hiding: bool, original: nat): seq<Rendered>
    requires n <= |rs|
  {
    if n == 0 then []
    else Render(rs, n - 1, addResID, hiding, original) + RenderAt(rs, n - 1, addResID, hiding, original)
  }

  /** How addResources ends: with the rendered elements, an exception, or a read past an empty list. */
  datatype Output = Elements(elements: seq<Rendered>) | Thrown | Crashed

  // ----- the operation -----

  class CdsItem {
    var resources: seq<Resource>

    constructor (resources: seq<Resource>)
      ensures this.resources == resources
    {
      this.resources := resources;
    }

    /** The profile loop: the list grows at both ends, and originalResource follows stored resource 0. On an
        item without resources the program reads past the list as soon as a profile needs resource 0. */
    method AddTranscoded(info: Info, profiles: seq<Profile>)
      returns (crashed: bool, hideOriginal: bool, originalResource: nat)
      modifies this
      ensures crashed <==> old(resources) == [] && exists p :: p in profiles && ReadsFirst(info, p)
      ensures !crashed ==>
                var acc := Accepted(info, profiles, FourccOf(old(resources)));
                && resources == Final(old(resources), acc)
                && originalResource == |Front(acc)|
                && hideOriginal == HidesOriginal(acc)
    {
      crashed, hideOriginal, originalResource := false, false, 0;
      ghost var stored := resources;
      ghost var acc: seq<Profile> := [];
      ghost var fourcc := FourccOf(stored);
      ghost var all := Accepted(info, profiles, fourcc);
      assert profiles[0..] == profiles && acc + all == all;
      for p := 0 to |profiles|
        invariant resources == Final(stored, acc) && fourcc == FourccOf(resources)
        invariant resources == [] <==> stored == []
        invariant stored == [] ==> forall i :: 0 <= i < p ==> !ReadsFirst(info, profiles[i])
        invariant acc + Accepted(info, profiles[p..], fourcc) == all
        invariant originalResource == |Front(acc)| && hideOriginal == HidesOriginal(acc)
      {
        var tp := profiles[p];
        if resources == [] && NeedsFourcc(info, tp) {
          assert ReadsFirst(info, tp);
          return true, hideOriginal, originalResource;
        }
        AcceptStep(info, profiles, p, fourcc, acc, all);
        var ok := Test(info, tp, FourccOf(resources));
        if ok {
          if resources == [] {
            assert ReadsFirst(info, tp);
            return true, hideOriginal, originalResource;
          }
          if tp.hideOriginal {
            hideOriginal := true;
          }
          OneMore(stored, acc, tp);
          hide Final, Accepted, Front, HidesOriginal;
          Insert(tp);
          if tp.first {
            originalResource := originalResource + 1;
            fourcc := "";
          }
          acc := acc + [tp];
        }
      }
      assert profiles[|profiles|..] == [] && acc + [] == acc;
    }

    /** The new resource goes to the front or to the back. */
    method Insert(tp: Profile)
      requires resources != []
      modifies this
      ensures resources == if tp.first then [Transcoded(tp)] + old(resources) else old(resources) + [Transcoded(tp)]
      ensures resources != [] && FourccOf(resources) == if tp.first then "" else FourccOf(old(resources))
    {
      if tp.first {
        resources := [Transcoded(tp)] + resources;
      } else {
        resources := resources + [Transcoded(tp)];
      }
    }

    /** The tests that lead to `continue`, with the loop over the fourcc list. */
    method Test(info: Info, tp: Profile, fourcc: string) returns (ok: bool)
      ensures ok == Accepts(info, tp, fourcc)
    {
      if info.content.Ogg? {
        if (info.theora && !tp.theora) || (!info.theora && tp.theora) { return false; }
      } else if info.content.Avi? {
        if !tp.mode.FccNone? {
          if fourcc == "" {
            if tp.mode.FccProcess? { return false; }
          } else {
            var match_ := false;
            for f := 0 to |tp.fourccs|
              invariant match_ <==> fourcc in tp.fourccs[..f]
            {
              if fourcc == tp.fourccs[f] { match_ := true; }
            }
            assert tp.fourccs[..|tp.fourccs|] == tp.fourccs;
            if !match_ && tp.mode.FccProcess? { return false; }
            if match_ && tp.mode.FccIgnore? { return false; }
          }
        }
      }
      return !(!info.dvdImage && tp.onlyDVD);
    }

    /** The rendering loop with its running count of real resources. None: an exception was thrown. */
    method RenderAll(addResID: bool, hideOriginal: bool, originalResource: nat) returns (out: Option<seq<Rendered>>)
      ensures out.None? <==> exists i :: 0 <= i < |resources| && BrokenAt(resources, i)
      ensures out.Some? ==> out.value == Render(resources, |resources|, addResID, hideOriginal, originalResource)
    {
      var realCount := 0;
      var done: seq<Rendered> := [];
      for i := 0 to |resources|
        invariant realCount == RealCount(resources, i)
        invariant done == Render(resources, i, addResID, hideOriginal, originalResource)
        invariant forall j :: 0 <= j < i ==> !BrokenAt(resources, j)
      {
        var r := resources[i];
        var url := TranscodeUrl;
        if !r.transcoded {
          url := if addResID then WithId(realCount) else Bare;
          realCount := realCount + 1;
        }
        if i > 0 && (r.role.ExternalThumbnail? || r.role.ExternalArt?) {
          url := Own(r.role.url);
          if r.role.url == "" {
            assert BrokenAt(resources, i);
            return None;
          }
        }
        if i > 0 && (r.role.Art? || r.role.ExternalArt?) {
          done := done + [AlbumArtUri(r, url)];
        } else if !hideOriginal || r.transcoded || originalResource != i {
          done := done + [Res(r, url)];
        }
      }
      return Some(done);
    }

    /** addResources. A video thumbnail resource, if there is to be one, joins the stored ones first; whether
        there is one is read from resource 0. */
    method AddResources(info: Info, thumbnail: Option<Resource>, profiles: seq<Profile>, addResID: bool)
      returns (out: Output)
      requires thumbnail.Some? ==> resources != []
      modifies this
      ensures out.Crashed? <==> old(resources) == [] && exists p :: p in profiles && ReadsFirst(info, p)
      ensures !out.Crashed? ==>
                var stored := old(resources) + (if thumbnail.Some? then [thumbnail.value] else []);
                var acc := Accepted(info, profiles, FourccOf(stored));
                var rs := Final(stored, acc);
                && resources == rs
                && (out.Thrown? <==> exists i :: 0 <= i < |rs| && BrokenAt(rs, i))
                && (out.Elements? ==> out.elements == Render(rs, |rs|, addResID, HidesOriginal(acc), |Front(acc)|))
    {
      if thumbnail.Some? {
        resources := resources + [thumbnail.value];
      }
      var crashed, hiding, original := AddTranscoded(info, profiles);
      if crashed {
        return Crashed;
      }
      var rendered := RenderAll(addResID, hiding, original);
      out := if rendered.Some? then Elements(rendered.value) else Thrown;
    }
  }

  // ----- what it comes to -----

  lemma AcceptStep(info: Info, ps: seq<Profile>, p: nat, fourcc: string, acc: seq<Profile>, all: seq<Profile>)
    requires p < |ps| && acc + Accepted(info, ps[p..], fourcc) == all
    ensures if Accepts(info, ps[p], fourcc)
            then (acc + [ps[p]]) + Accepted(info, ps[p + 1..], if ps[p].first then "" else fourcc) == all
            else acc + Accepted(info, ps[p + 1..], fourcc) == all
  {
    assert ps[p..][0] == ps[p] && ps[p..][1..] == ps[p + 1..];
  }

  /** One more accepted profile puts its resource in front of everything or behind everything. */
  lemma OneMore(stored: seq<Resource>, acc: seq<Profile>, p: Profile)
    ensures Final(stored, acc + [p]) ==
            if p.first then [Transcoded(p)] + Final(stored, acc) else Final(stored, acc) + [Transcoded(p)]
    ensures |Front(acc + [p])| == |Front(acc)| + (if p.first then 1 else 0)
    ensures HidesOriginal(acc + [p]) == (HidesOriginal(acc) || p.hideOriginal)
  {
    assert (acc + [p])[..|acc|] == acc;
    if HidesOriginal(acc) {
      var q :| q in acc && q.hideOriginal;
      assert q in acc + [p];
    }
    if p.hideOriginal { assert p in acc + [p]; }
  }

  /** The stored resources keep their order, in one block right behind the front resources. */
  lemma StoredBlock(stored: seq<Resource>, acc: seq<Profile>)
    ensures var rs, f := Final(stored, acc), |Front(acc)|;
            && f + |stored| <= |rs| && rs[f..f + |stored|] == stored
            && (forall i :: 0 <= i < |rs| && !(f <= i < f + |stored|) ==> rs[i].transcoded)
  {
    var rs, f := Final(stored, acc), |Front(acc)|;
    forall i | 0 <= i < |rs| && !(f <= i < f + |stored|) ensures rs[i].transcoded {
      if i < f {
        assert rs[i] == Front(acc)[i] && Front(acc)[i] in Front(acc);
      } else {
        assert rs[i] == Back(acc)[i - f - |stored|] && Back(acc)[i - f - |stored|] in Back(acc);
      }
    }
  }

  lemma {:induction false} FrontCountsNothing(stored: seq<Resource>, acc: seq<Profile>, n: nat)
    requires n <= |Front(acc)|
    ensures n <= |Final(stored, acc)| && RealCount(Final(stored, acc), n) == 0
  {
    StoredBlock(stored, acc);
    if n > 0 { FrontCountsNothing(stored, acc, n - 1); }
  }

  /** The ID rendered for stored resource j counts the stored, untranscoded resources before it. */
  lemma {:induction false} StoredCount(stored: seq<Resource>, acc: seq<Profile>, j: nat)
    requires j <= |stored|
    ensures var f := |Front(acc)|;
            f + j <= |Final(stored, acc)| && RealCount(Final(stored, acc), f + j) == RealCount(stored, j)
    decreases j
  {
    StoredBlock(stored, acc);
    var rs, f := Final(stored, acc), |Front(acc)|;
    if j == 0 {
      FrontCountsNothing(stored, acc, f);
    } else {
      StoredCount(stored, acc, j - 1);
      assert rs[f..f + |stored|][j - 1] == stored[j - 1];
    }
  }

  lemma {:induction false} CountsAll(stored: seq<Resource>, j: nat)
    requires j <= |stored|
    ensures RealCount(stored, j) == j <==> forall i :: 0 <= i < j ==> !stored[i].transcoded
  {
    if j > 0 { CountsAll(stored, j - 1); }
  }

  /** The URL of stored resource j carries an ID: it is not transcoded and not an external one behind the first
      place. */
  predicate CarriesId(stored: seq<Resource>, acc: seq<Profile>, j: nat)
    requires j < |stored|
  {
    && !stored[j].transcoded
    && (stored[j].role.ExternalThumbnail? || stored[j].role.ExternalArt? ==> |Front(acc)| + j == 0)
  }

  /** Every stored resource whose URL carries an ID gets the index it had before the insertions,
      exactly when no stored resource before it is itself marked as transcoded. */
  lemma IdIsStoredIndex(stored: seq<Resource>, acc: seq<Profile>, j: nat)
    requires j < |stored|
    ensures var rs, i := Final(stored, acc), |Front(acc)| + j;
            && i < |rs| && rs[i] == stored[j]
            && (UrlAt(rs, i, true).WithId? <==> CarriesId(stored, acc, j))
            && (CarriesId(stored, acc, j) ==>
                  (UrlAt(rs, i, true) == WithId(j) <==> forall k :: 0 <= k < j ==> !stored[k].transcoded))
  {
    StoredBlock(stored, acc);
    StoredCount(stored, acc, j);
    CountsAll(stored, j);
    hide Final, Front, RealCount;
    var rs, f := Final(stored, acc), |Front(acc)|;
    assert rs[f..f + |stored|][j] == stored[j];
  }

  /** Hiding the original suppresses exactly stored resource 0, unless that is rendered as album art or is
      itself marked as transcoded; then nothing is suppressed. */
  lemma HidesExactlyTheOriginal(stored: seq<Resource>, acc: seq<Profile>, addResID: bool, i: nat)
    requires stored != [] && i < |Final(stored, acc)|
    ensures var rs, f := Final(stored, acc), |Front(acc)|;
            RenderAt(rs, i, addResID, HidesOriginal(acc), f) == [] <==>
            HidesOriginal(acc) && i == f && !IsArt(rs, i) && !stored[0].transcoded
    ensures var rs, f := Final(stored, acc), |Front(acc)|; f < |rs| && rs[f] == stored[0]
  {
    StoredBlock(stored, acc);
    var rs, f := Final(stored, acc), |Front(acc)|;
    assert rs[f..f + |stored|][0] == stored[0];
  }

  /** Which profiles a front resource changes: the fourcc of resource 0 is gone, so exactly the profiles
      that would have found it in their list are judged differently. */
  lemma FourccForgotten(info: Info, p: Profile, fourcc: string)
    ensures Accepts(info, p, fourcc) != Accepts(info, p, "") <==>
            && info.content.Avi? && !p.mode.FccNone? && fourcc != "" && fourcc in p.fourccs
            && (p.onlyDVD ==> info.dvdImage)
  {
  }

  // ----- which resources are added -----

  /** Why a profile does not apply, with the fourcc that resource 0 has at that point. */
  datatype Reason = OtherCodec | FourccUnlisted | FourccListed | NotADvd

  predicate Hinders(r: Reason, info: Info, p: Profile, fourcc: string) {
    match r
    case OtherCodec => info.content == Ogg && info.theora != p.theora
    case FourccUnlisted => info.content == Avi && p.mode == FccProcess && (fourcc == "" || fourcc !in p.fourccs)
    case FourccListed => info.content == Avi && p.mode == FccIgnore && fourcc != "" && fourcc in p.fourccs
    case NotADvd => p.onlyDVD && !info.dvdImage
  }

  predicate Applies(info: Info, p: Profile, fourcc: string) {
    forall r: Reason :: !Hinders(r, info, p, fourcc)
  }

  lemma AppliesExactly(info: Info, p: Profile, fourcc: string)
    ensures Applies(info, p, fourcc) <==> Accepts(info, p, fourcc)
  {
    if Applies(info, p, fourcc) {
      assert forall r: Reason :: !Hinders(r, info, p, fourcc);
      assert !Hinders(OtherCodec, info, p, fourcc) && !Hinders(FourccUnlisted, info, p, fourcc);
      assert !Hinders(FourccListed, info, p, fourcc) && !Hinders(NotADvd, info, p, fourcc);
    }
  }

  /** The profiles before p have put a resource in front. */
  predicate SomeFirst(acc: seq<Profile>) {
    exists i :: 0 <= i < |acc| && acc[i].first
  }

  /** One profile after the other: p adds a resource exactly if nothing hinders it, judged by the fourcc of the
      stored resource 0, or by none once a profile before it has put a resource in front. */
  lemma {:induction false} AcceptedExactly(info: Info, ps: seq<Profile>, p: Profile, fourcc: string)
    ensures Accepted(info, [], fourcc) == []
    ensures var acc := Accepted(info, ps, fourcc);
            Accepted(info, ps + [p], fourcc) ==
            if Applies(info, p, if SomeFirst(acc) then "" else fourcc) then acc + [p] else acc
    decreases |ps|
  {
    if ps == [] {
      AppliesExactly(info, p, fourcc);
      assert [] + [p] == [p] && [p][1..] == [];
    } else {
      AppliesExactly(info, ps[0], fourcc);
      assert (ps + [p])[1..] == ps[1..] + [p];
      var a := Accepts(info, ps[0], fourcc);
      var now := if a && ps[0].first then "" else fourcc;
      AcceptedExactly(info, ps[1..], p, now);
      hide Applies, Accepts;
      var rest := Accepted(info, ps[1..], now);
      if a { FirstOrLater(ps[0], rest); }
    }
  }

  lemma FirstOrLater(p: Profile, rest: seq<Profile>)
    ensures SomeFirst([p] + rest) <==> p.first || SomeFirst(rest)
  {
    if i :| 0 <= i < |rest| && rest[i].first { assert ([p] + rest)[i + 1].first; }
    if p.first { assert ([p] + rest)[0].first; }
  }

  /** Without profiles the list stays, and nothing is hidden; every added resource is a plain transcoded one
      without a fourcc, under the name of an accepted profile, and each of those has one. */
  lemma {:induction false} AddedResources(stored: seq<Resource>, acc: seq<Profile>)
    ensures Final(stored, []) == stored && !HidesOriginal([])
    ensures forall i :: 0 <= i < |Final(stored, acc)| && !(|Front(acc)| <= i < |Front(acc)| + |stored|) ==>
                          exists p :: p in acc && Final(stored, acc)[i] == Resource(p.name, "", true, Plain)
    ensures forall p :: p in acc ==> Resource(p.name, "", true, Plain) in Final(stored, acc)
    ensures |Final(stored, acc)| == |stored| + |acc|
    decreases |acc|
  {
    if acc == [] {
      assert Front([]) + stored + Back([]) == stored;
    } else {
      var n := |acc| - 1;
      var p, rs := acc[n], Final(stored, acc[..n]);
      assert acc == acc[..n] + [p];
      OneMore(stored, acc[..n], p);
      AddedResources(stored, acc[..n]);
      hide Final, Front;
      AddedOne(stored, acc, n, rs);
    }
  }

  lemma AddedOne(stored: seq<Resource>, acc: seq<Profile>, n: nat, rs: seq<Resource>)
    requires acc != [] && n == |acc| - 1 && rs == Final(stored, acc[..n]) && acc == acc[..n] + [acc[n]]
    requires Final(stored, acc) == if acc[n].first then [Transcoded(acc[n])] + rs else rs + [Transcoded(acc[n])]
    requires |Front(acc)| == |Front(acc[..n])| + (if acc[n].first then 1 else 0)
    requires |rs| == |stored| + n && |Front(acc[..n])| <= n
    requires forall i :: 0 <= i < |rs| && !(|Front(acc[..n])| <= i < |Front(acc[..n])| + |stored|) ==>
                           exists p :: p in acc[..n] && rs[i] == Resource(p.name, "", true, Plain)
    requires forall p :: p in acc[..n] ==> Resource(p.name, "", true, Plain) in rs
    ensures forall i :: 0 <= i < |Final(stored, acc)| && !(|Front(acc)| <= i < |Front(acc)| + |stored|) ==>
                          exists p :: p in acc && Final(stored, acc)[i] == Resource(p.name, "", true, Plain)
    ensures forall p :: p in acc ==> Resource(p.name, "", true, Plain) in Final(stored, acc)
  {
    hide Final, Front;
    var all, q, f := Final(stored, acc), acc[n], |Front(acc[..n])|;
    forall i | 0 <= i < |all| && !(|Front(acc)| <= i < |Front(acc)| + |stored|)
      ensures exists p :: p in acc && all[i] == Resource(p.name, "", true, Plain)
    {
      var j := if q.first then i - 1 else i;
      if 0 <= j < |rs| {
        assert all[i] == rs[j];
        var p :| p in acc[..n] && rs[j] == Resource(p.name, "", true, Plain);
        assert p in acc;
      } else {
        assert q in acc && all[i] == Transcoded(q);
      }
    }
    forall p | p in acc ensures Resource(p.name, "", true, Plain) in all {
      if p in acc[..n] {
        var i :| 0 <= i < |rs| && rs[i] == Resource(p.name, "", true, Plain);
        assert all[if q.first then i + 1 else i] == rs[i];
      } else {
        assert all[if q.first then 0 else |rs|] == Transcoded(q);
      }
    }
  }

  /** The program reads past the list of an item without resources exactly for a profile that looks at its fourcc,
      or that applies. */
  lemma ReadsFirstExactly(info: Info, p: Profile)
    ensures ReadsFirst(info, p) <==> (info.content == Avi && p.mode != FccNone) || Applies(info, p, "")
  {
    AppliesExactly(info, p, "");
  }

  // ----- what is rendered -----

  /** Resource i in the output, by its role and its place: an external one behind the first place has its own
      URL, a transcoded one the transcoding URL, any other one its number if numbers are asked for. Album art behind
      the first place is rendered as such; of the others the original is left out if it is to be hidden. */
  lemma RenderedExactly(rs: seq<Resource>, i: nat, addResID: bool, hiding: bool, original: nat)
    requires i < |rs|
    ensures var r, out := rs[i], RenderAt(rs, i, addResID, hiding, original);
            var url := match r.role
                       case ExternalThumbnail(u) => if i == 0 then None else Some(Own(u))
                       case ExternalArt(u) => if i == 0 then None else Some(Own(u))
                       case _ => None;
            var given := if url.Some? then url.value
                         else if r.transcoded then TranscodeUrl
                         else if addResID then WithId(RealCount(rs, i)) else Bare;
            if i > 0 && (r.role == Art || r.role.ExternalArt?) then out == [AlbumArtUri(r, given)]
            else if hiding && !r.transcoded && i == original then out == []
            else out == [Res(r, given)]
    ensures BrokenAt(rs, i) <==> i > 0 && (rs[i].role == ExternalThumbnail("") || rs[i].role == ExternalArt(""))
  {
  }

  /** The output follows the list: without hiding, one element for each resource, in order. */
  lemma {:induction false} RenderFollows(rs: seq<Resource>, n: nat, addResID: bool, original: nat)
    requires n <= |rs|
    ensures var out := Render(rs, n, addResID, false, original);
            |out| == n && forall i :: 0 <= i < n ==> out[i].resource == rs[i]
  {
    if n > 0 { RenderFollows(rs, n - 1, addResID, original); }
  }

  /** The elements without the one of a resource that is hidden. */
  function WithoutHidden(rs: seq<Resource>, all: seq<Rendered>, original: nat): seq<Rendered>
    requires |all| <= |rs|
  {
    if original < |all| && !rs[original].transcoded && !IsArt(rs, original)
    then all[..original] + all[original + 1..] else all
  }

  /** With hiding, the same elements but for the one of the original. */
  lemma {:induction false} RenderHides(rs: seq<Resource>, n: nat, addResID: bool, original: nat)
    requires n <= |rs|
    ensures |Render(rs, n, addResID, false, original)| == n
    ensures Render(rs, n, addResID, true, original) ==
            WithoutHidden(rs, Render(rs, n, addResID, false, original), original)
  {
    RenderFollows(rs, n, addResID, original);
    if n > 0 {
      RenderHides(rs, n - 1, addResID, original);
      RenderFollows(rs, n - 1, addResID, original);
      var last := RenderAt(rs, n - 1, addResID, false, original);
      assert |last| == 1 && RenderAt(rs, n - 1, addResID, true, original) == WithoutLast(rs, n - 1, last, original);
      hide RenderAt;
      HiddenAppends(rs, Render(rs, n - 1, addResID, false, original), last, original);
    }
  }

  function WithoutLast(rs: seq<Resource>, i: nat, last: seq<Rendered>, original: nat): seq<Rendered>
    requires i < |rs|
  {
    if i == original && !rs[i].transcoded && !IsArt(rs, i) then [] else last
  }

  lemma HiddenAppends(rs: seq<Resource>, all: seq<Rendered>, last: seq<Rendered>, original: nat)
    requires |all| < |rs| && |last| == 1
    ensures WithoutHidden(rs, all, original) + WithoutLast(rs, |all|, last, original) ==
            WithoutHidden(rs, all + last, original)
  {
    if original < |all| {
      assert (all + last)[..original] == all[..original];
      assert (all + last)[original + 1..] == all[original + 1..] + last;
    } else if original == |all| {
      assert (all + last)[..original] == all && (all + last)[original + 1..] == [];
    }
  }

  /** Two profiles for the same fourcc: the second is dropped because the first one went to the front. */
  lemma SecondProfileDropped()
    ensures var p := Profile("a", false, false, FccProcess, ["XVID"], false, true);
            var q := Profile("b", false, false, FccProcess, ["XVID"], false, false);
            && Accepted(Info(Avi, false, false), [p, q], "XVID") == [p]
            && Accepted(Info(Avi, false, false), [q], "XVID") == [q]
  {
    var p := Profile("a", false, false, FccProcess, ["XVID"], false, true);
    var q := Profile("b", false, false, FccProcess, ["XVID"], false, false);
    assert [p, q][1..] == [q] && [q][1..] == [];
  }
}

/**
 * The preparation of the fill of a template with the school-management
 * data: the absences of each learner sorted into three lists, the mapping
 * from the upper-cased "NAME FIRSTNAME" of each learner to its code, birth
 * date, site and group, and the column configuration of the template,
 * checked to hold every key the fill writes.
 */
module Fill {
  import opened Wrappers
  import opened Text
  import Absences
  import Sheets

  /** The message every error of the fill is re-raised with. */
  function Raised(msg: string): string {
    "Erreur lors du remplissage des données dans le template : " + msg
  }

  // ---------------------------------------------------------------------
  // Absence summary
  // ---------------------------------------------------------------------

  /** The list a record goes to in the fill: a justified absence first, then a delay, else an unjustified one. */
  function KindOf(a: Absences.Absence): Absences.Kind {
    if a.isJustifie then Absences.Justified else if a.isRetard then Absences.Delay else Absences.Unjustified
  }

  /** The three lists of one learner's records, each in input order. */
  function Sorted(list: seq<Absences.Absence>): Absences.Buckets
    decreases |list|
  {
    if list == [] then Absences.NoAbsences
    else
      var a := list[|list| - 1];
      Absences.Append(Sorted(list[..|list| - 1]), KindOf(a), Absences.Duration(a))
  }

  /** The learner codes of `absences.items()`, already turned into text. */
  function Keys(items: seq<(string, seq<Absences.Absence>)>): set<string> {
    set i | 0 <= i < |items| :: items[i].0
  }

  /** The records of the last entry whose code is `code`: a later entry replaces an earlier one. */
  function LastList(items: seq<(string, seq<Absences.Absence>)>, code: string): Option<seq<Absences.Absence>>
    decreases |items|
  {
    if items == [] then None
    else if items[|items| - 1].0 == code then Some(items[|items| - 1].1)
    else LastList(items[..|items| - 1], code)
  }

  /**
   * The absence summary of the fill: for each learner code, an entry reset
   * to three empty lists, then each of its records appended to the list its
   * flags choose.
   */
  method SummarizeAbsences(items: seq<(string, seq<Absences.Absence>)>) returns (summary: map<string, Absences.Buckets>)
    ensures summary.Keys == Keys(items)
    ensures forall code | code in summary :: LastList(items, code).Some? && summary[code] == Sorted(LastList(items, code).value)
  {
    summary := map[];
    var i := 0;
    while i < |items|
      invariant 0 <= i <= |items|
      invariant summary.Keys == Keys(items[..i])
      invariant forall code | code in summary :: LastList(items[..i], code).Some? && summary[code] == Sorted(LastList(items[..i], code).value)
    {
      var code, list := items[i].0, items[i].1;
      var before := summary;
      summary := summary[code := Absences.NoAbsences];
      var j := 0;
      while j < |list|
        invariant 0 <= j <= |list|
        invariant summary == before[code := Sorted(list[..j])]
      {
        var a := list[j];
        assert list[..j + 1][..j] == list[..j];
        summary := summary[code := Absences.Append(summary[code], KindOf(a), Absences.Duration(a))];
        j := j + 1;
      }
      assert list[..j] == list;
      assert items[..i + 1][..i] == items[..i];
      KeysStep(items[..i + 1]);
      i := i + 1;
    }
    assert items[..i] == items;
  }

  /** The codes of a list of entries are those of its prefix and the code of its last entry. */
  lemma {:induction false} KeysStep(items: seq<(string, seq<Absences.Absence>)>)
    requires items != []
    ensures Keys(items) == Keys(items[..|items| - 1]) + {items[|items| - 1].0}
  {
    var p := items[..|items| - 1];
    forall c | c in Keys(p)
      ensures c in Keys(items)
    {
      var j :| 0 <= j < |p| && p[j].0 == c;
      assert items[j] == p[j];
    }
  }

  /** Each record lands in exactly one of the three lists. */
  lemma {:induction false} SortedOneListEach(list: seq<Absences.Absence>)
    ensures var b := Sorted(list);
            |b.justified| + |b.unjustified| + |b.delays| == |list|
    decreases |list|
  {
    if list != [] {
      SortedOneListEach(list[..|list| - 1]);
    }
  }

  /**
   * The fill and the absence service sort a record differently exactly when
   * it is flagged both as justified and as a delay: the fill counts it as
   * justified, the service as a delay.
   */
  lemma {:induction false} PrecedenceDiffers(a: Absences.Absence)
    ensures KindOf(a) != Absences.KindOf(a) <==> a.isJustifie && a.isRetard
    ensures a.isJustifie && a.isRetard ==> KindOf(a) == Absences.Justified && Absences.KindOf(a) == Absences.Delay
  {
  }

  /**
   * For the records of one learner, none flagged twice, the fill's lists are
   * those of the absence service.
   */
  lemma {:induction false} SortedAsService(list: seq<Absences.Absence>, code: string)
    requires forall i | 0 <= i < |list| :: Absences.Of(list[i], code) && !(list[i].isJustifie && list[i].isRetard)
    ensures Sorted(list) == Absences.BucketsOf(list, code)
    decreases |list|
  {
    if list != [] {
      SortedAsService(list[..|list| - 1], code);
      PrecedenceDiffers(list[|list| - 1]);
    }
  }

  /** A record flagged both as justified and as a delay goes to the justified list. */
  lemma {:induction false} JustifiedFirst(list: seq<Absences.Absence>, a: Absences.Absence)
    requires a.isJustifie && a.isRetard
    ensures Sorted(list + [a]) == Sorted(list).(justified := Sorted(list).justified + [Absences.Duration(a)])
  {
    assert (list + [a])[..|list|] == list;
  }

  // ---------------------------------------------------------------------
  // Learners and groups
  // ---------------------------------------------------------------------

  /** An element of a list the API returns: a dictionary, or anything else, which is skipped. */
  datatype Item<T> = Dict(value: T) | NotDict

  /** A group; `None` stands for a missing key. */
  datatype Groupe = Groupe(codeGroupe: Option<string>, nomGroupe: Option<string>, etenduGroupe: Option<string>)

  /** The group fields a learner receives. */
  datatype GroupInfo = GroupInfo(codeGroupe: string, nomGroupe: string, etenduGroupe: string)

  const NoGroup := GroupInfo("", "", "")

  /** A group that enters `groupes_mapping`: a dictionary with a `codeGroupe` key. */
  predicate Listed(g: Item<Groupe>) {
    g.Dict? && g.value.codeGroupe.Some?
  }

  function InfoOf(g: Groupe): GroupInfo
    requires g.codeGroupe.Some?
  {
    GroupInfo(g.codeGroupe.value, g.nomGroupe.GetOr(""), g.etenduGroupe.GetOr(""))
  }

  /** `groupes_mapping`: the listed groups by code, a later group replacing an earlier one with the same code. */
  function GroupesMapping(gs: seq<Item<Groupe>>): map<string, GroupInfo>
    decreases |gs|
  {
    if gs == [] then map[]
    else
      var g := gs[|gs| - 1];
      var m := GroupesMapping(gs[..|gs| - 1]);
      if Listed(g) then m[g.value.codeGroupe.value := InfoOf(g.value)] else m
  }

  /** The codes in `groupes_mapping` are those of the listed groups. */
  lemma {:induction false} GroupesMappingKeys(gs: seq<Item<Groupe>>, code: string)
    ensures code in GroupesMapping(gs) <==> exists i | 0 <= i < |gs| :: Listed(gs[i]) && gs[i].value.codeGroupe.value == code
    decreases |gs|
  {
    if gs != [] {
      var p := gs[..|gs| - 1];
      GroupesMappingKeys(p, code);
      assert forall i | 0 <= i < |p| :: p[i] == gs[i];
      if code in GroupesMapping(gs) && code !in GroupesMapping(p) {
        assert Listed(gs[|gs| - 1]) && gs[|gs| - 1].value.codeGroupe.value == code;
      }
    }
  }

  /** A code maps to the fields of the last listed group with that code. */
  lemma {:induction false} GroupesMappingLast(gs: seq<Item<Groupe>>, i: nat)
    requires i < |gs| && Listed(gs[i])
    requires forall j | i < j < |gs| :: !(Listed(gs[j]) && gs[j].value.codeGroupe == gs[i].value.codeGroupe)
    ensures gs[i].value.codeGroupe.value in GroupesMapping(gs)
    ensures GroupesMapping(gs)[gs[i].value.codeGroupe.value] == InfoOf(gs[i].value)
    decreases |gs|
  {
    if i < |gs| - 1 {
      var p := gs[..|gs| - 1];
      assert p[i] == gs[i];
      GroupesMappingLast(p, i);
    }
  }

  /** An attendance record; `None` stands for a missing key. */
  datatype Frequentation = Frequentation(codeApprenant: Option<string>, codeGroupe: Option<string>)

  /** `frequentation_groupe_mapping`: learner code to group code, "" for a missing key, a later record replacing an earlier one. */
  function FrequentationMapping(fs: seq<Item<Frequentation>>): map<string, string>
    decreases |fs|
  {
    if fs == [] then map[]
    else
      var f := fs[|fs| - 1];
      var m := FrequentationMapping(fs[..|fs| - 1]);
      if f.Dict? then m[f.value.codeApprenant.GetOr("") := f.value.codeGroupe.GetOr("")] else m
  }

  /** A learner code maps to the group code of its last attendance record. */
  lemma {:induction false} FrequentationMappingLast(fs: seq<Item<Frequentation>>, i: nat)
    requires i < |fs| && fs[i].Dict?
    requires forall j | i < j < |fs| :: !(fs[j].Dict? && fs[j].value.codeApprenant.GetOr("") == fs[i].value.codeApprenant.GetOr(""))
    ensures fs[i].value.codeApprenant.GetOr("") in FrequentationMapping(fs)
    ensures FrequentationMapping(fs)[fs[i].value.codeApprenant.GetOr("")] == fs[i].value.codeGroupe.GetOr("")
    decreases |fs|
  {
    if i < |fs| - 1 {
      var p := fs[..|fs| - 1];
      assert p[i] == fs[i];
      FrequentationMappingLast(p, i);
    }
  }

  /** A learner code without attendance record is not in the mapping. */
  lemma {:induction false} FrequentationMappingAbsent(fs: seq<Item<Frequentation>>, code: string)
    requires forall j | 0 <= j < |fs| :: !(fs[j].Dict? && fs[j].value.codeApprenant.GetOr("") == code)
    ensures code !in FrequentationMapping(fs)
    decreases |fs|
  {
    if fs != [] {
      FrequentationMappingAbsent(fs[..|fs| - 1], code);
    }
  }

  /**
   * The group fields of the learner with code `code`: those of the group its
   * attendance names, or empty ones when it has no attendance record or its
   * group is not listed.
   */
  function GroupOf(code: string, fm: map<string, string>, gm: map<string, GroupInfo>): GroupInfo {
    var groupCode := if code in fm then fm[code] else "";
    if groupCode in gm then gm[groupCode] else NoGroup
  }

  /**
   * The group a learner receives: the listed group its attendance names;
   * empty fields when its attendance names no listed group, or when it has
   * no attendance record and no group has the empty code.
   */
  lemma {:induction false} GroupOfCases(code: string, fm: map<string, string>, gm: map<string, GroupInfo>)
    ensures code in fm && fm[code] in gm ==> GroupOf(code, fm, gm) == gm[fm[code]]
    ensures code in fm && fm[code] !in gm ==> GroupOf(code, fm, gm) == NoGroup
    ensures code !in fm && "" !in gm ==> GroupOf(code, fm, gm) == NoGroup
    ensures GroupOf(code, fm, gm) != NoGroup ==> exists k | k in gm :: gm[k] == GroupOf(code, fm, gm)
  {
  }

  /** A learner's group is one of the listed groups, or the empty fields. */
  lemma {:induction false} GroupListedOrNone(code: string, fs: seq<Item<Frequentation>>, gs: seq<Item<Groupe>>)
    ensures var info := GroupOf(code, FrequentationMapping(fs), GroupesMapping(gs));
            info == NoGroup || exists i | 0 <= i < |gs| :: Listed(gs[i]) && InfoOf(gs[i].value) == info
  {
    var info := GroupOf(code, FrequentationMapping(fs), GroupesMapping(gs));
    if info != NoGroup {
      var k :| k in GroupesMapping(gs) && GroupesMapping(gs)[k] == info;
      GroupValue(gs, k);
    }
  }

  /** Every value of `groupes_mapping` is the fields of a listed group. */
  lemma {:induction false} GroupValue(gs: seq<Item<Groupe>>, k: string)
    requires k in GroupesMapping(gs)
    ensures exists i | 0 <= i < |gs| :: Listed(gs[i]) && InfoOf(gs[i].value) == GroupesMapping(gs)[k]
    decreases |gs|
  {
    var p := gs[..|gs| - 1];
    var g := gs[|gs| - 1];
    if Listed(g) && g.value.codeGroupe.value == k {
      assert Listed(gs[|gs| - 1]) && InfoOf(gs[|gs| - 1].value) == GroupesMapping(gs)[k];
    } else {
      GroupValue(p, k);
      var i :| 0 <= i < |p| && Listed(p[i]) && InfoOf(p[i].value) == GroupesMapping(p)[k];
      assert gs[i] == p[i];
    }
  }

  /** The site of an enrolment; `None` stands for a missing key. */
  datatype Site = Site(nomSite: Option<string>)

  datatype Inscription = Inscription(site: Option<Site>)

  /** A learner as the API lists it; `None` stands for a missing key. */
  datatype Apprenant = Apprenant(
    nomApprenant: Option<string>, prenomApprenant: Option<string>, codeApprenant: Option<string>,
    dateNaissance: Option<string>, inscriptions: Option<seq<Inscription>>)

  /** What the fill knows of a learner. */
  datatype Learner = Learner(codeApprenant: string, dateNaissance: string, site: string, group: GroupInfo)

  /** The key of a learner: `f"{nom.strip().upper()} {prenom.strip().upper()}"`. */
  function NameKey(nom: string, prenom: string): string {
    Upper(Strip(nom)) + " " + Upper(Strip(prenom))
  }

  /** The name of the site of the first enrolment; an index error for an empty list of enrolments. */
  function SiteOf(a: Apprenant): Result<string> {
    if a.inscriptions.None? then Ok("")
    else if a.inscriptions.value == [] then Err("list index out of range")
    else
      var i := a.inscriptions.value[0];
      Ok(if i.site.None? then "" else i.site.value.nomSite.GetOr(""))
  }

  /** One entry of `apprenant_mapping`, or the `KeyError` or `IndexError` its computation raises. */
  function LearnerOf(a: Apprenant, fm: map<string, string>, gm: map<string, GroupInfo>): Result<(string, Learner)> {
    if a.nomApprenant.None? then Err("'nomApprenant'")
    else if a.prenomApprenant.None? then Err("'prenomApprenant'")
    else
      match SiteOf(a)
      case Err(e) => Err(e)
      case Ok(site) =>
        var code := a.codeApprenant.GetOr("");
        Ok((NameKey(a.nomApprenant.value, a.prenomApprenant.value),
            Learner(code, a.dateNaissance.GetOr(""), site, GroupOf(code, fm, gm))))
  }

  /**
   * `apprenant_mapping`: the learners by name key, a later learner replacing
   * an earlier one with the same key; the error of the first learner whose
   * entry cannot be computed.
   */
  function ApprenantMapping(apprenants: seq<Item<Apprenant>>, fm: map<string, string>, gm: map<string, GroupInfo>): Result<map<string, Learner>>
    decreases |apprenants|
  {
    if apprenants == [] then Ok(map[])
    else
      var a := apprenants[|apprenants| - 1];
      match ApprenantMapping(apprenants[..|apprenants| - 1], fm, gm)
      case Err(e) => Err(e)
      case Ok(m) =>
        if a.NotDict? then Ok(m)
        else
          match LearnerOf(a.value, fm, gm)
          case Err(e) => Err(e)
          case Ok(entry) => Ok(m[entry.0 := entry.1])
  }

  /** Whether the entry of a listed learner can be computed. */
  predicate Computable(a: Item<Apprenant>, fm: map<string, string>, gm: map<string, GroupInfo>) {
    a.NotDict? || LearnerOf(a.value, fm, gm).Ok?
  }

  /** The mapping is built exactly when every learner's entry can be computed; otherwise the first failure is raised. */
  lemma {:induction false} ApprenantMappingOk(apprenants: seq<Item<Apprenant>>, fm: map<string, string>, gm: map<string, GroupInfo>)
    ensures ApprenantMapping(apprenants, fm, gm).Ok? <==> forall i | 0 <= i < |apprenants| :: Computable(apprenants[i], fm, gm)
    ensures ApprenantMapping(apprenants, fm, gm).Err? ==>
              exists i | 0 <= i < |apprenants| :: !Computable(apprenants[i], fm, gm) && ApprenantMapping(apprenants, fm, gm).msg == LearnerOf(apprenants[i].value, fm, gm).msg
    decreases |apprenants|
  {
    if apprenants != [] {
      var p := apprenants[..|apprenants| - 1];
      ApprenantMappingOk(p, fm, gm);
      assert forall i | 0 <= i < |p| :: p[i] == apprenants[i];
    }
  }

  /** The keys of the mapping are the name keys of the listed learners. */
  lemma {:induction false} ApprenantMappingKeys(apprenants: seq<Item<Apprenant>>, fm: map<string, string>, gm: map<string, GroupInfo>, k: string)
    requires ApprenantMapping(apprenants, fm, gm).Ok?
    ensures k in ApprenantMapping(apprenants, fm, gm).value <==>
              exists i | 0 <= i < |apprenants| :: apprenants[i].Dict? && LearnerOf(apprenants[i].value, fm, gm).Ok? && LearnerOf(apprenants[i].value, fm, gm).value.0 == k
    decreases |apprenants|
  {
    if apprenants != [] {
      var p := apprenants[..|apprenants| - 1];
      ApprenantMappingKeys(p, fm, gm, k);
      assert forall i | 0 <= i < |p| :: p[i] == apprenants[i];
    }
  }

  /** A name key maps to the last listed learner with that key. */
  lemma {:induction false} ApprenantMappingLast(apprenants: seq<Item<Apprenant>>, fm: map<string, string>, gm: map<string, GroupInfo>, i: nat)
    requires ApprenantMapping(apprenants, fm, gm).Ok? && i < |apprenants| && apprenants[i].Dict? && LearnerOf(apprenants[i].value, fm, gm).Ok?
    requires forall j | i < j < |apprenants| :: !(apprenants[j].Dict? && LearnerOf(apprenants[j].value, fm, gm).Ok? && LearnerOf(apprenants[j].value, fm, gm).value.0 == LearnerOf(apprenants[i].value, fm, gm).value.0)
    ensures var e := LearnerOf(apprenants[i].value, fm, gm).value;
            e.0 in ApprenantMapping(apprenants, fm, gm).value && ApprenantMapping(apprenants, fm, gm).value[e.0] == e.1
    decreases |apprenants|
  {
    var p := apprenants[..|apprenants| - 1];
    if i < |apprenants| - 1 {
      assert p[i] == apprenants[i];
      ApprenantMappingLast(p, fm, gm, i);
    }
  }

  /** Keys built from the same stripped, upper-cased names coincide: the key ignores surrounding blanks and ASCII case. */
  lemma {:induction false} NameKeyNormalized(nom: string, prenom: string)
    ensures NameKey(nom, prenom) == NameKey(Upper(Strip(nom)), Upper(Strip(prenom)))
  {
    UpperStripFixed(nom);
    UpperStripFixed(prenom);
  }

  /** Stripping and upper-casing twice is stripping and upper-casing once. */
  lemma {:induction false} UpperStripFixed(s: string)
    ensures Upper(Strip(Upper(Strip(s)))) == Upper(Strip(s))
  {
    var t := Strip(s);
    UpperKeepsSpace(t);
    StripIdentity(Upper(t));
    UpperIdempotent(t);
  }

  /** `upper` changes no whitespace character and creates none. */
  lemma {:induction false} UpperKeepsSpace(s: string)
    ensures forall i | 0 <= i < |s| :: IsSpace(Upper(s)[i]) <==> IsSpace(s[i])
    decreases |s|
  {
    if s != [] {
      UpperKeepsSpace(s[1..]);
      assert forall i | 1 <= i < |s| :: Upper(s)[i] == Upper(s[1..])[i - 1];
    }
  }

  lemma {:induction false} UpperIdempotent(s: string)
    ensures Upper(Upper(s)) == Upper(s)
    decreases |s|
  {
    if s != [] {
      UpperIdempotent(s[1..]);
    }
  }

  // ---------------------------------------------------------------------
  // Column configuration of the fill
  // ---------------------------------------------------------------------

  /** The columns the fill writes for a template. */
  datatype FillConfig = FillConfig(
    codeApprenant: string, dateNaissance: string, site: string, codeGroupe: string, nomGroupe: string,
    etenduGroupe: string, absJustified: string, absUnjustified: string, absDelays: string, appreciation: string)

  /** The fill's `template_configs` entry of each template. */
  function FillConfigOf(t: Sheets.Template): FillConfig {
    match t.track
    case TP =>
      if t.semester == 1 then FillConfig("A", "AC", "AD", "AE", "AF", "AG", "AH", "AI", "AJ", "AK")
      else if t.semester == 2 then FillConfig("A", "F", "G", "H", "I", "J", "K", "L", "M", "N")
      else if t.semester == 3 then FillConfig("A", "V", "W", "X", "Y", "Z", "AA", "AB", "AC", "AD")
      else if t.semester == 4 then FillConfig("A", "F", "G", "H", "I", "J", "K", "L", "M", "N")
      else if t.semester == 5 then FillConfig("A", "Z", "AA", "AB", "AC", "AD", "AE", "AF", "AG", "AH")
      else FillConfig("A", "G", "H", "I", "J", "K", "L", "M", "N", "O")
    case ALT =>
      if t.semester == 1 then FillConfig("A", "U", "V", "W", "X", "Y", "Z", "AA", "AB", "AC")
      else if t.semester == 2 then FillConfig("A", "V", "W", "X", "Y", "Z", "AA", "AB", "AC", "AD")
      else if t.semester == 3 then FillConfig("A", "T", "U", "V", "W", "X", "Y", "Z", "AA", "AB")
      else if t.semester == 4 then FillConfig("A", "T", "U", "V", "W", "X", "Y", "Z", "AA", "AB")
      else if t.semester == 5 then FillConfig("A", "U", "v", "W", "X", "Y", "Z", "AA", "AB", "AC")
      else FillConfig("A", "S", "T", "U", "V", "W", "X", "Y", "Z", "AA")
  }

  /** The configuration as the dictionary the fill reads, under its key names. */
  function ConfigDict(c: FillConfig): map<string, string> {
    map[
      "code_apprenant" := c.codeApprenant, "date_naissance" := c.dateNaissance, "site" := c.site,
      "code_groupe" := c.codeGroupe, "nom_groupe" := c.nomGroupe, "etendu_groupe" := c.etenduGroupe,
      "abs_justified" := c.absJustified, "abs_unjustified" := c.absUnjustified, "abs_delays" := c.absDelays,
      "appreciation" := c.appreciation]
  }

  /** The keys the fill needs besides `code_apprenant`. */
  const REQUIRED_KEYS: seq<string> := [
    "date_naissance", "site", "code_groupe", "nom_groupe", "etendu_groupe",
    "abs_justified", "abs_unjustified", "abs_delays", "appreciation"]

  /** `template_configs.get(template_name)`, with the error for a template without configuration. */
  function FillConfigFor(name: string): Result<map<string, string>> {
    match Sheets.Named(name)
    case None => Err("Configuration non trouvée pour le template : " + name)
    case Some(t) => Ok(ConfigDict(FillConfigOf(t)))
  }

  /** The check that a configuration holds every required key, naming the missing ones in order. */
  function CheckConfig(name: string, config: map<string, string>): Result<()> {
    var missing := Missing(REQUIRED_KEYS, config);
    if missing != [] then Err("Configuration incomplète pour " + name + ". Clés manquantes : " + ListRepr(missing))
    else Ok(())
  }

  /** The check fails exactly when a required key is absent, and its message lists exactly the absent keys. */
  lemma {:induction false} CheckConfigMeaning(name: string, config: map<string, string>)
    ensures CheckConfig(name, config).Ok? <==> forall k | k in REQUIRED_KEYS :: k in config
    ensures CheckConfig(name, config).Err? ==>
              exists missing: seq<string> ::
                (forall k :: k in missing <==> k in REQUIRED_KEYS && k !in config) &&
                CheckConfig(name, config).msg == "Configuration incomplète pour " + name + ". Clés manquantes : " + ListRepr(missing)
  {
    var missing := Missing(REQUIRED_KEYS, config);
    if missing != [] {
      assert missing[0] in REQUIRED_KEYS && missing[0] !in config;
    }
  }

  /** A configuration exists for exactly the templates the copy has a configuration for, and each one passes the check. */
  lemma {:induction false} FillConfigComplete(name: string)
    ensures FillConfigFor(name).Ok? <==> Sheets.Named(name).Some?
    ensures FillConfigFor(name).Ok? ==> CheckConfig(name, FillConfigFor(name).value).Ok?
  {
    if FillConfigFor(name).Ok? {
      CheckConfigMeaning(name, FillConfigFor(name).value);
    }
  }

  /** What the fill has ready before it reads the template rows. */
  datatype Prepared = Prepared(learners: map<string, Learner>, config: map<string, string>)

  /**
   * The steps of the fill before its loop over the rows, in the order they
   * may raise: the learner mapping, the configuration lookup, the check of
   * its keys; each error re-raised with the fill's message.
   */
  function Prepare(name: string, gs: seq<Item<Groupe>>, fs: seq<Item<Frequentation>>, apprenants: seq<Item<Apprenant>>): Result<Prepared> {
    match ApprenantMapping(apprenants, FrequentationMapping(fs), GroupesMapping(gs))
    case Err(e) => Err(Raised(e))
    case Ok(learners) =>
      match FillConfigFor(name)
      case Err(e) => Err(Raised(e))
      case Ok(config) =>
        match CheckConfig(name, config)
        case Err(e) => Err(Raised(e))
        case Ok(_) => Ok(Prepared(learners, config))
  }

  /**
   * The preparation succeeds exactly when every learner's entry can be
   * computed and the template has a configuration; a missing configuration
   * is reported with the template's name.
   */
  lemma {:induction false} PrepareOutcome(name: string, gs: seq<Item<Groupe>>, fs: seq<Item<Frequentation>>, apprenants: seq<Item<Apprenant>>)
    ensures var fm, gm := FrequentationMapping(fs), GroupesMapping(gs);
            Prepare(name, gs, fs, apprenants).Ok? <==> (forall i | 0 <= i < |apprenants| :: Computable(apprenants[i], fm, gm)) && Sheets.Named(name).Some?
    ensures var fm, gm := FrequentationMapping(fs), GroupesMapping(gs);
            ApprenantMapping(apprenants, fm, gm).Ok? && Sheets.Named(name).None? ==>
              Prepare(name, gs, fs, apprenants) == Err(Raised("Configuration non trouvée pour le template : " + name))
  {
    ApprenantMappingOk(apprenants, FrequentationMapping(fs), GroupesMapping(gs));
    FillConfigComplete(name);
  }
}

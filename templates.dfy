/**
 * The table from the name of a class group to the Excel template of its
 * semester, and its lookup.
 */
module Templates {
  import opened Wrappers
  import opened Sheets
  import Fill

  /** `TEMPLATE_MAPPING`: each group name with the template "BG-<track>-S<semester>.xlsx" it uses. */
  const TEMPLATE_MAPPING: map<string, Template> := map[
    "B-BG1 TP - TP Semestre 1" := Template(TP, 1),
    "L-BG1 TP - TP Semestre 1" := Template(TP, 1),
    "M-BG1 TP - TP Semestre 1" := Template(TP, 1),
    "N-BG1 TP - TP Semestre 1" := Template(TP, 1),
    "P-BG1 TP 1 - TP Semestre 1" := Template(TP, 1),
    "P-BG1 TP 2 Rentrée décalée" := Template(TP, 1),
    "B-BG1 TP - TP Semestre 2" := Template(TP, 2),
    "L-BG1 TP - TP Semestre 2" := Template(TP, 2),
    "M-BG1 TP - TP Semestre 2" := Template(TP, 2),
    "N-BG1 TP - TP Semestre 2" := Template(TP, 2),
    "P-BG1 TP 1 - TP Semestre 2" := Template(TP, 2),
    "P-BG2 TP - TP Semestre 1" := Template(TP, 3),
    "L-BG2 TP - TP Semestre 1" := Template(TP, 3),
    "M-BG2 TP - TP Semestre 1" := Template(TP, 3),
    "N-BG2 TP - TP Semestre 1" := Template(TP, 3),
    "P-BG2 TP - TP Semestre 2" := Template(TP, 4),
    "L-BG2 TP - TP Semestre 2" := Template(TP, 4),
    "M-BG2 TP - TP Semestre 2" := Template(TP, 4),
    "N-BG2 TP - TP Semestre 2" := Template(TP, 4),
    "P-BG3 TP 1 - TP Semestre 1" := Template(TP, 5),
    "P-BG3 TP 2 Rentrée décalée" := Template(TP, 5),
    "P-BG3 TP Section Internationale" := Template(TP, 5),
    "N-BG3 TP - TP Semestre 1" := Template(TP, 5),
    "L-BG3 TP - TP Semestre 1" := Template(TP, 5),
    "P-BG3 TP 1 - TP Semestre 2" := Template(TP, 6),
    "N-BG3 TP - TP Semestre 2" := Template(TP, 6),
    "L-BG3 TP - TP Semestre 2" := Template(TP, 6),
    "L-BG1 ALT 1 - ALT Semestre 1 - 1ère année" := Template(ALT, 1),
    "L-BG1 ALT 2 - ALT Semestre 1 - 1ère année" := Template(ALT, 1),
    "LI-BG1 ALT - ALT Semestre 1 - 1ère année" := Template(ALT, 1),
    "M-BG1 ALT - ALT Semestre 1 - 1ère année" := Template(ALT, 1),
    "MP-BG1 ALT - ALT Semestre 1 - 1ère année" := Template(ALT, 1),
    "N-BG1 ALT - ALT Semestre 1 - 1ère année" := Template(ALT, 1),
    "P-BG1 ALT 1 - ALT Semestre 1 - 1ère année" := Template(ALT, 1),
    "P-BG1 ALT 2 - ALT Semestre 1 - 1ère année" := Template(ALT, 1),
    "P-BG1 ALT 3 - ALT Semestre 1 - 1ère année" := Template(ALT, 1),
    "L-BG1 ALT 2 - ALT Semestre 1" := Template(ALT, 1),
    "L-BG1 ALT 1 - ALT Semestre 2 - 1ère année" := Template(ALT, 2),
    "L-BG2 ALT - ALT Semestre 1" := Template(ALT, 3),
    "B-BG2 ALT - ALT Semestre 2" := Template(ALT, 4),
    "L-BG3 ALT 1 - ALT Semestre 1" := Template(ALT, 5),
    "L-BG3 ALT 1 - ALT Semestre 2" := Template(ALT, 6)
  ]

  /** The message of the `ValueError` for a group without template. */
  function NoTemplate(group: string): string {
    "Aucun template trouvé pour le groupe : " + group
  }

  /** The file name of the template of a group, or the error for a group the table does not list. */
  function GetTemplateFileName(group: string): Result<string> {
    if group in TEMPLATE_MAPPING then Ok(FileName(TEMPLATE_MAPPING[group]))
    else Err(NoTemplate(group))
  }

  /**
   * A listed group gets the file name of its template, which is one of the
   * twelve templates and has the copy configuration of that template; an
   * unlisted group gets the error naming it.
   */
  lemma {:induction false} GetTemplateFileNameMeaning(group: string)
    ensures GetTemplateFileName(group).Ok? <==> group in TEMPLATE_MAPPING
    ensures GetTemplateFileName(group).Err? ==> GetTemplateFileName(group).msg == NoTemplate(group)
    ensures GetTemplateFileName(group).Ok? ==>
              var name := GetTemplateFileName(group).value;
              Named(name) == Some(TEMPLATE_MAPPING[group]) && exists t | t in TEMPLATES :: FileName(t) == name
  {
    if group in TEMPLATE_MAPPING {
      var t := TEMPLATE_MAPPING[group];
      NamedFileName(t, FileName(t));
      AllListed(t);
    }
  }

  /**
   * The template of a listed group has a copy configuration and a fill
   * configuration, and the fill configuration holds every required key.
   */
  lemma {:induction false} GroupTemplateConfigured(group: string)
    requires group in TEMPLATE_MAPPING
    ensures var name := GetTemplateFileName(group).value;
            Named(name).Some? && Fill.FillConfigFor(name).Ok? && Fill.CheckConfig(name, Fill.FillConfigFor(name).value).Ok?
  {
    var t := TEMPLATE_MAPPING[group];
    NamedFileName(t, FileName(t));
    Fill.FillConfigComplete(FileName(t));
  }

  /** The first-semester full-time groups of the sites B, L, M, N and P, the late intake included. */
  const FIRST_SEMESTER_TP_GROUPS: seq<string> := [
    "B-BG1 TP - TP Semestre 1", "L-BG1 TP - TP Semestre 1", "M-BG1 TP - TP Semestre 1",
    "N-BG1 TP - TP Semestre 1", "P-BG1 TP 1 - TP Semestre 1", "P-BG1 TP 2 Rentrée décalée"
  ]

  /** The campus variants of the first full-time semester all share "BG-TP-S1.xlsx". */
  lemma {:induction false} FirstSemesterSites(group: string)
    requires group in FIRST_SEMESTER_TP_GROUPS
    ensures GetTemplateFileName(group) == Ok("BG-TP-S1.xlsx")
  {
    TpS1FileName();
    assert group in TEMPLATE_MAPPING && TEMPLATE_MAPPING[group] == Template(TP, 1);
  }
}

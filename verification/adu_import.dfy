/**
 * The ADU opt-in import script: one "ADU Opt-In" project for the Chicago
 * City Council, and one status record per alderperson, strongly approving
 * for the wards on the opt-in list and neutral for the rest.
 *
 * The services it calls are reduced to what they return: the council
 * jurisdiction (if found), the group and project ids, and the entities.
 */
module AduImport {
  import opened Wrappers
  import opened PyJson
  import opened Models

  /** `OPT_IN_WARDS`. */
  const OptInWards: seq<int> := [1, 4, 6, 12, 14, 22, 25, 26, 27, 29, 30, 32, 33, 35, 40, 43, 44, 46, 47, 49]

  /** The opt-in list names 20 different wards, in increasing order, all between 1 and 50. */
  lemma OptInWardsShape()
    ensures |OptInWards| == 20
    ensures forall i, j :: 0 <= i < j < |OptInWards| ==> OptInWards[i] < OptInWards[j]
    ensures forall i :: 0 <= i < |OptInWards| ==> 1 <= OptInWards[i] <= 50
  {
  }

  /** An entity as the loop reads it: the `district_name` and `district_code` attributes, `None` when absent. */
  datatype AduEntity = AduEntity(id: Value, districtName: Option<string>, districtCode: Option<string>)

  /** A string attribute that is present and non-empty. */
  predicate Given(s: Option<string>) {
    s.Some? && |s.value| > 0
  }

  /** The text up to the first space. */
  function UpToSpace(s: string): (r: string)
    ensures |r| <= |s| && r == s[..|r|] && ' ' !in r
    ensures |r| < |s| ==> s[|r|] == ' '
  {
    if |s| == 0 || s[0] == ' ' then "" else [s[0]] + UpToSpace(s[1..])
  }

  /** `name.split(" ")[1]` for a name whose fifth character is the first space. */
  function WardToken(name: string): string
    requires |name| >= 5
  {
    UpToSpace(name[5..])
  }

  /**
   * The ward number of an entity: from a `district_name` of the form
   * "ward N" in any case, or, only when there is no `district_name`, from
   * `district_code`; `None` when the text is not a number.
   */
  function WardNumber(e: AduEntity): (r: Option<int>)
    ensures Given(e.districtName) && !StartsWith(Lower(e.districtName.value), "ward ") ==> r.None?
    ensures Given(e.districtName) && StartsWith(Lower(e.districtName.value), "ward ") ==>
      r == ParseInt(WardToken(e.districtName.value))
    ensures !Given(e.districtName) && Given(e.districtCode) ==> r == ParseInt(e.districtCode.value)
    ensures !Given(e.districtName) && !Given(e.districtCode) ==> r.None?
  {
    if Given(e.districtName) then
      var name := e.districtName.value;
      if StartsWith(Lower(name), "ward ") then ParseInt(WardToken(name)) else None
    else if Given(e.districtCode) then ParseInt(e.districtCode.value)
    else None
  }

  /** A district name that does not start with "ward " hides the district code. */
  lemma NameShadowsCode(id: Value, name: string, code: string)
    requires |name| > 0 && !StartsWith(Lower(name), "ward ")
    ensures WardNumber(AduEntity(id, Some(name), Some(code))).None?
  {
  }

  /** "Ward N" in any capitalisation of "Ward", N a plain number, reads as ward N whatever the district code says. */
  lemma WardPrefixParses(id: Value, digits: string, code: Option<string>)
    requires |digits| > 0 && AllDigits(digits)
    ensures WardNumber(AduEntity(id, Some("Ward " + digits), code)) == Some(DigitsValue(digits))
  {
    var name := "Ward " + digits;
    LowerWardPrefix(name);
    assert name[5..] == digits;
    assert WardToken(name) == digits by {
      var t := UpToSpace(digits);
      if |t| < |digits| {
        assert digits[|t|] == ' ' && IsDigit(digits[|t|]);
      }
    }
  }

  /** Two spaces after "Ward" leave an empty second piece, so no ward. */
  lemma DoubleSpaceGivesNoWard(id: Value, rest: string, code: Option<string>)
    ensures WardNumber(AduEntity(id, Some("Ward  " + rest), code)).None?
  {
    var name := "Ward  " + rest;
    LowerWardPrefix(name);
    assert name[5..][0] == ' ';
  }

  /** Lower-casing "Ward ..." gives "ward ...". */
  lemma LowerWardPrefix(name: string)
    requires |name| >= 5 && name[..5] == "Ward "
    ensures StartsWith(Lower(name), "ward ")
  {
    var rest := name[1..];
    assert name[0] == 'W' && rest[0] == 'a' && rest[1] == 'r' && rest[2] == 'd' && rest[3] == ' ' by {
      assert name[..5][0] == name[0] && name[..5][1] == rest[0] && name[..5][2] == rest[1];
      assert name[..5][3] == rest[2] && name[..5][4] == rest[3];
    }
    var tail := Lower(rest);
    assert Lower(name) == ['w'] + tail;
    assert tail[0] == 'a' && tail[1] == 'r' && tail[2] == 'd' && tail[3] == ' ';
    assert (['w'] + tail)[..5] == "ward ";
  }

  /** `is_opt_in`. */
  predicate OptedIn(ward: Option<int>) {
    ward.Some? && ward.value in OptInWards
  }

  /** The status of an entity: strongly approving exactly for a parsed ward on the list. */
  function StatusFor(ward: Option<int>): (r: EntityStatus)
    ensures r == SolidApproval <==> OptedIn(ward)
    ensures r != SolidApproval ==> r == Neutral
  {
    if OptedIn(ward) then SolidApproval else Neutral
  }

  /** The notes of an entity's record. */
  function NotesFor(ward: Option<int>): (r: string)
    ensures !OptedIn(ward) ==> r == "No opt-in record"
    ensures OptedIn(ward) ==> r == "Ward " + IntToString(ward.value) + " opted in to allow ADUs to be built in the ward"
  {
    if OptedIn(ward) then "Ward " + IntToString(ward.value) + " opted in to allow ADUs to be built in the ward"
    else "No opt-in record"
  }

  /** An `EntityStatusRecord` the script creates (`updated_by` "admin"). */
  datatype AduRecord = AduRecord(entityId: Value, projectId: Value, status: EntityStatus, notes: string)

  /** The `ProjectBase` the script creates. */
  datatype AduProject = AduProject(
    title: string, status: ProjectStatus, active: bool, preferredStatus: EntityStatus,
    jurisdictionId: Value, groupId: Value, createdBy: string)

  /**
   * `import_adu_project_data`: nothing at all without the council
   * jurisdiction; otherwise the project and one record per entity of the
   * council, in order.
   */
  function ImportAdu(council: Option<Value>, groupId: Value, projectId: Value, entities: seq<AduEntity>)
    : (r: Option<(AduProject, seq<AduRecord>)>)
    ensures r.None? <==> council.None?
    ensures r.Some? ==> r.value.0.jurisdictionId == council.value && r.value.0.groupId == groupId &&
                         r.value.0.preferredStatus == SolidApproval && r.value.0.status == Active
    ensures r.Some? ==> |r.value.1| == |entities|
    ensures r.Some? ==> forall i :: 0 <= i < |entities| ==>
      && r.value.1[i].entityId == entities[i].id && r.value.1[i].projectId == projectId
      && (r.value.1[i].status == SolidApproval <==> OptedIn(WardNumber(entities[i])))
      && r.value.1[i].notes == NotesFor(WardNumber(entities[i]))
  {
    if council.None? then None
    else
      var project := AduProject("ADU Opt-In", Active, true, SolidApproval, council.value, groupId, "admin");
      Some((project, seq(|entities|, i requires 0 <= i < |entities| =>
        var ward := WardNumber(entities[i]);
        AduRecord(entities[i].id, projectId, StatusFor(ward), NotesFor(ward)))))
  }

  /** Every record is either strongly approving or neutral, and the approving ones are exactly the opted-in wards. */
  lemma RecordsAreApprovingOrNeutral(council: Value, groupId: Value, projectId: Value, entities: seq<AduEntity>, i: nat)
    requires i < |entities|
    ensures var rs := ImportAdu(Some(council), groupId, projectId, entities).value.1;
      rs[i].status in {SolidApproval, Neutral}
  {
  }
}

/** The ordered field list that `/formenhance` assembles from a request body
    before anything is sent upstream. */
module FormParams {
  import opened JsString
  import opened Prompt

  /** The body of a `/formenhance` request. A known field is absent (None)
      when the body does not carry it; `extraFields` lists the entries of the
      extra-fields object in the order Object.entries enumerates them, and is
      empty when the body has none. */
  datatype FormRequest = FormRequest(
    companyName: Option<string>,
    role: Option<string>,
    skills: Option<string>,
    eligibility: Option<string>,
    tone: Option<string>,
    extraFields: seq<Field>)

  /** The labels of the four known fields, in the order they are pushed. */
  const KnownKeys: seq<string> := ["Company", "Role", "Skills", "Eligibility"]

  /** The request's values for the four known fields, in the order of KnownKeys. */
  function KnownValues(req: FormRequest): (vs: seq<Option<string>>)
    ensures |vs| == |KnownKeys|
  {
    [req.companyName, req.role, req.skills, req.eligibility]
  }

  /** The entry a known field contributes: one when its value is truthy, none otherwise. */
  function EntryIfTruthy(key: string, v: Option<string>): seq<Field> {
    if Truthy(v) then [Field(key, v.value)] else []
  }

  /** The entries the four conditional pushes produce: only the four labels,
      in the order Company, Role, Skills, Eligibility. */
  function KnownEntries(req: FormRequest): (ks: seq<Field>)
    ensures forall i :: 0 <= i < |ks| ==> ks[i].key in KnownKeys
    ensures forall i, j :: 0 <= i < j < |ks| ==> KeyRank(ks[i].key) < KeyRank(ks[j].key)
  {
    EntryIfTruthy("Company", req.companyName)
    + EntryIfTruthy("Role", req.role)
    + EntryIfTruthy("Skills", req.skills)
    + EntryIfTruthy("Eligibility", req.eligibility)
  }

  /** The whole field list: known entries first, then every extra field.
      It is empty exactly when no known field is truthy and there is no
      extra field. */
  function FieldList(req: FormRequest): (params: seq<Field>)
    ensures params == [] <==>
              !Truthy(req.companyName) && !Truthy(req.role) && !Truthy(req.skills)
              && !Truthy(req.eligibility) && req.extraFields == []
  {
    KnownEntries(req) + req.extraFields
  }

  /** The position of a known label in KnownKeys (4 for any other key). */
  function KeyRank(key: string): nat {
    if key == "Company" then 0
    else if key == "Role" then 1
    else if key == "Skills" then 2
    else if key == "Eligibility" then 3
    else 4
  }

  /** `params` built step by step: four conditional pushes, then one push per
      extra field in enumeration order. */
  method AssembleParams(req: FormRequest) returns (params: seq<Field>)
    ensures params == FieldList(req)
  {
    params := [];
    if Truthy(req.companyName) {
      params := params + [Field("Company", req.companyName.value)];
    }
    if Truthy(req.role) {
      params := params + [Field("Role", req.role.value)];
    }
    if Truthy(req.skills) {
      params := params + [Field("Skills", req.skills.value)];
    }
    if Truthy(req.eligibility) {
      params := params + [Field("Eligibility", req.eligibility.value)];
    }
    var i := 0;
    while i < |req.extraFields|
      invariant 0 <= i <= |req.extraFields|
      invariant params == KnownEntries(req) + req.extraFields[..i]
    {
      params := params + [req.extraFields[i]];
      i := i + 1;
    }
  }

  /** A known field has an entry exactly when its value is truthy, and that
      entry carries the value unchanged. */
  lemma {:induction false} KnownEntryIffTruthy(req: FormRequest, k: nat)
    requires k < |KnownKeys|
    ensures (exists i :: 0 <= i < |KnownEntries(req)| && KnownEntries(req)[i].key == KnownKeys[k])
            <==> Truthy(KnownValues(req)[k])
    ensures forall i :: 0 <= i < |KnownEntries(req)| && KnownEntries(req)[i].key == KnownKeys[k] ==>
              KnownEntries(req)[i].value == KnownValues(req)[k].value
  {
    var ks := KnownEntries(req);
    var vs := KnownValues(req);
    var before := |EntryIfTruthy("Company", req.companyName)|;
    if k >= 1 {
      before := before + |EntryIfTruthy("Role", req.role)|;
    }
    if k >= 2 {
      before := before + |EntryIfTruthy("Skills", req.skills)|;
    }
    if k >= 3 {
      before := before + |EntryIfTruthy("Eligibility", req.eligibility)|;
    }
    if Truthy(vs[k]) {
      var at := if k == 0 then 0 else before - 1;
      assert k == 0 ==> ks[0] == Field("Company", req.companyName.value);
      assert ks[at] == Field(KnownKeys[k], vs[k].value);
    }
  }

  /** The extra fields follow the known entries, all of them, unchanged and
      in their enumeration order, whatever their values. */
  lemma ExtraFieldsFollow(req: FormRequest)
    ensures |FieldList(req)| == |KnownEntries(req)| + |req.extraFields|
    ensures FieldList(req)[..|KnownEntries(req)|] == KnownEntries(req)
    ensures FieldList(req)[|KnownEntries(req)|..] == req.extraFields
  {
  }
}

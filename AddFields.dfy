/**
 * The decision logic of the field-placement step of the document editor:
 * which option fields are missing their options, whether every signer has a
 * signature field before submitting, how recipients are grouped by role and
 * ordered for the signer picker, which signer is selected by default, and
 * how copy, duplicate, paste, remove and "save settings" change the list of
 * placed fields. Rendering, pointer geometry and the form library are not
 * modelled; the list of fields the form holds is the `fields` of a
 * `FieldEditor`.
 */
module AddFields {
  import opened Wrappers
  import opened Seqs

  datatype FieldType =
    Signature | FreeSignature | Initials | Name | Email | Date | Text | Number | Radio | Checkbox | Dropdown

  datatype RecipientRole = CC | Viewer | Signer | Approver | Assistant

  datatype SendStatus = NotSent | Sent

  datatype Recipient = Recipient(
    id: int,
    email: string,
    name: string,
    role: RecipientRole,
    signingOrder: Option<int>,
    sendStatus: SendStatus)

  /** The `values` entry of a field's settings: no such key, a key holding `undefined`, or a list of options. */
  datatype MetaValues = NoValuesKey | ValuesUndefined | ValuesList(items: seq<string>)

  datatype FieldMeta = FieldMeta(labelText: Option<string>, required: bool, readOnly: bool, values: MetaValues)

  /** A placed field as the form holds it; positions and sizes are percentages of the page. */
  datatype FormField = FormField(
    nativeId: Option<int>,
    formId: string,
    pageNumber: int,
    fieldType: FieldType,
    pageX: real,
    pageY: real,
    pageWidth: real,
    pageHeight: real,
    recipientId: int,
    fieldMeta: Option<FieldMeta>)

  // ---------------------------------------------------------------- empty option fields

  predicate IsOptionType(t: FieldType) {
    t == Checkbox || t == Radio || t == Dropdown
  }

  /**
   * The second filter of `filterFieldsWithEmptyValues`: a field passes when it
   * has no settings, when its settings have no `values` key, or when `values`
   * is an empty list; a `values` key holding `undefined` does not pass.
   */
  predicate HasNoValues(f: FormField) {
    match f.fieldMeta
    case None => true
    case Some(meta) =>
      match meta.values
      case NoValuesKey => true
      case ValuesUndefined => false
      case ValuesList(items) => |items| == 0
  }

  function IsOfType(t: FieldType): FormField -> bool {
    (f: FormField) => f.fieldType == t
  }

  function IsEmptyOfType(t: FieldType): FormField -> bool {
    (f: FormField) => f.fieldType == t && HasNoValues(f)
  }

  /**
   * `filterFieldsWithEmptyValues`: the two filters in a row keep exactly the
   * fields of type `t` without option values, in their original order.
   */
  function FilterFieldsWithEmptyValues(fields: seq<FormField>, t: FieldType): (r: seq<FormField>)
    ensures r == Filter(fields, IsEmptyOfType(t))
    ensures forall i :: 0 <= i < |r| ==> r[i] in fields && r[i].fieldType == t && HasNoValues(r[i])
    ensures forall i :: 0 <= i < |fields| && fields[i].fieldType == t && HasNoValues(fields[i]) ==> fields[i] in r
  {
    FilterFilter(fields, IsOfType(t), HasNoValues, IsEmptyOfType(t));
    Filter(Filter(fields, IsOfType(t)), HasNoValues)
  }

  /** `hasErrors`: some checkbox, radio or dropdown field has no option values. */
  function HasErrors(fields: seq<FormField>): (b: bool)
    ensures b <==> exists i :: 0 <= i < |fields| && IsOptionType(fields[i].fieldType) && HasNoValues(fields[i])
  {
    var checkboxes := FilterFieldsWithEmptyValues(fields, Checkbox);
    var radios := FilterFieldsWithEmptyValues(fields, Radio);
    var selects := FilterFieldsWithEmptyValues(fields, Dropdown);
    assert checkboxes != [] ==> checkboxes[0] in fields;
    assert radios != [] ==> radios[0] in fields;
    assert selects != [] ==> selects[0] in fields;
    |checkboxes| > 0 || |radios| > 0 || |selects| > 0
  }

  /**
   * The test of `fieldsWithError`: an option field with no settings at all, or
   * any field whose settings hold an empty `values` list.
   */
  predicate HasFieldError(f: FormField) {
    || (IsOptionType(f.fieldType) && f.fieldMeta.None?)
    || (f.fieldMeta.Some? && f.fieldMeta.value.values.ValuesList? && |f.fieldMeta.value.values.items| == 0)
  }

  /** The stored-field shape `fieldsWithError` builds for the warning tooltip. */
  datatype FlaggedField = FlaggedField(
    id: int,
    secondaryId: string,
    recipientId: int,
    fieldType: FieldType,
    page: int,
    positionX: real,
    positionY: real,
    width: real,
    height: real,
    inserted: bool,
    fieldMeta: Option<FieldMeta>)

  /**
   * A flagged copy keeps the field's form id, type, page, position, size and
   * settings; its id is the stored id or 0, it has no recipient and counts as inserted.
   */
  function AsFlaggedField(f: FormField): (g: FlaggedField)
    ensures g.secondaryId == f.formId && g.fieldType == f.fieldType && g.fieldMeta == f.fieldMeta
    ensures g.page == f.pageNumber && g.positionX == f.pageX && g.positionY == f.pageY
    ensures g.width == f.pageWidth && g.height == f.pageHeight
    ensures g.id == (if f.nativeId.Some? then f.nativeId.value else 0)
    ensures g.recipientId == 0 && g.inserted
  {
    FlaggedField(
      match f.nativeId case Some(n) => n case None => 0,
      f.formId, 0, f.fieldType, f.pageNumber, f.pageX, f.pageY, f.pageWidth, f.pageHeight, true, f.fieldMeta)
  }

  /** `fieldsWithError`: one flagged copy of each erroneous field, in placement order. */
  function FieldsWithError(fields: seq<FormField>): (r: seq<FlaggedField>)
    ensures |r| <= |fields|
    ensures r == [] <==> forall i :: 0 <= i < |fields| ==> !HasFieldError(fields[i])
    ensures forall j :: 0 <= j < |r| ==>
      exists i :: 0 <= i < |fields| && HasFieldError(fields[i]) && r[j] == AsFlaggedField(fields[i])
    ensures forall i :: 0 <= i < |fields| && HasFieldError(fields[i]) ==> AsFlaggedField(fields[i]) in r
  {
    var erroneous := Filter(fields, HasFieldError);
    assert forall i :: 0 <= i < |fields| && HasFieldError(fields[i]) ==> erroneous != [];
    Map(erroneous, AsFlaggedField)
  }

  /**
   * `fieldsWithError` is built field by field: an empty list flags nothing, and
   * appending a field appends its flagged copy exactly when it has an error.
   * So the list holds one entry per erroneous field, in placement order.
   */
  lemma FieldsWithErrorSnoc(fields: seq<FormField>, f: FormField)
    ensures FieldsWithError([]) == []
    ensures FieldsWithError(fields + [f]) == FieldsWithError(fields) + (if HasFieldError(f) then [AsFlaggedField(f)] else [])
  {
    var erroneous := Filter(fields, HasFieldError);
    var last := Filter([f], HasFieldError);
    assert [f][1..] == [];
    assert last == (if HasFieldError(f) then [f] else []);
    FilterConcat(fields, [f], HasFieldError);
    MapConcat(erroneous, last, AsFlaggedField);
    assert Map(last, AsFlaggedField) == (if HasFieldError(f) then [AsFlaggedField(f)] else []);
  }

  /** The tooltip shows the first erroneous field in placement order. */
  lemma FirstFieldWithError(fields: seq<FormField>, k: nat)
    requires k < |fields| && HasFieldError(fields[k])
    requires forall j :: 0 <= j < k ==> !HasFieldError(fields[j])
    ensures FieldsWithError(fields) != [] && FieldsWithError(fields)[0] == AsFlaggedField(fields[k])
  {
    FilterFirst(fields, HasFieldError, k);
  }

  // ---------------------------------------------------------------- recipients by role

  /** The keys of the role record, in declaration order. */
  const Roles: seq<RecipientRole> := [CC, Viewer, Signer, Approver, Assistant]

  function HasRole(role: RecipientRole): Recipient -> bool {
    (r: Recipient) => r.role == role
  }

  /** The recipients of one role, in input order. */
  function RoleBucket(recipients: seq<Recipient>, role: RecipientRole): (bucket: seq<Recipient>)
    ensures forall i :: 0 <= i < |bucket| ==> bucket[i] in recipients && bucket[i].role == role
    ensures forall i :: 0 <= i < |recipients| && recipients[i].role == role ==> recipients[i] in bucket
  {
    Filter(recipients, HasRole(role))
  }

  lemma RoleBucketSnoc(recipients: seq<Recipient>, x: Recipient, role: RecipientRole)
    ensures RoleBucket(recipients + [x], role) == RoleBucket(recipients, role) + (if x.role == role then [x] else [])
  {
    FilterConcat(recipients, [x], HasRole(role));
  }

  /**
   * `recipientsByRole`: start with an empty list for every role and push each
   * recipient onto the list of its role. Every role has a list, and each
   * list holds exactly that role's recipients in input order.
   */
  method GroupRecipientsByRole(recipients: seq<Recipient>) returns (byRole: map<RecipientRole, seq<Recipient>>)
    ensures forall role :: role in byRole
    ensures forall role :: role in byRole ==> byRole[role] == RoleBucket(recipients, role)
  {
    byRole := map[CC := [], Viewer := [], Signer := [], Approver := [], Assistant := []];
    forall role: RecipientRole
      ensures role in byRole
    {
      match role
      case CC =>
      case Viewer =>
      case Signer =>
      case Approver =>
      case Assistant =>
    }
    var i := 0;
    while i < |recipients|
      invariant 0 <= i <= |recipients|
      invariant forall role :: role in byRole
      invariant forall role :: role in byRole ==> byRole[role] == RoleBucket(recipients[..i], role)
    {
      var recipient := recipients[i];
      forall role | role in byRole
        ensures RoleBucket(recipients[..i + 1], role)
             == RoleBucket(recipients[..i], role) + (if recipient.role == role then [recipient] else [])
      {
        assert recipients[..i + 1] == recipients[..i] + [recipient];
        RoleBucketSnoc(recipients[..i], recipient, role);
      }
      byRole := byRole[recipient.role := byRole[recipient.role] + [recipient]];
      i := i + 1;
    }
    assert recipients[..i] == recipients;
  }

  /** The five role lists together hold every recipient exactly once. */
  lemma {:induction false} RoleBucketsPartition(recipients: seq<Recipient>)
    ensures |RoleBucket(recipients, CC)| + |RoleBucket(recipients, Viewer)| + |RoleBucket(recipients, Signer)|
          + |RoleBucket(recipients, Approver)| + |RoleBucket(recipients, Assistant)| == |recipients|
  {
    if recipients != [] {
      RoleBucketsPartition(recipients[1..]);
    }
  }

  // ---------------------------------------------------------------- ordering for display

  const MaxSafeInteger: int := 9007199254740991

  /** `signingOrder || Number.MAX_SAFE_INTEGER`: a missing or zero order sorts last. */
  function SigningOrderKey(r: Recipient): int {
    match r.signingOrder
    case Some(order) => if order != 0 then order else MaxSafeInteger
    case None => MaxSafeInteger
  }

  /** Ascending by signing order, then ascending by id. */
  predicate DisplayedBefore(a: Recipient, b: Recipient) {
    SigningOrderKey(a) < SigningOrderKey(b) || (SigningOrderKey(a) == SigningOrderKey(b) && a.id <= b.id)
  }

  predicate SortedForDisplay(rs: seq<Recipient>) {
    forall i, j :: 0 <= i < j < |rs| ==> DisplayedBefore(rs[i], rs[j])
  }

  /** Place `x` before the first element it may precede. */
  function InsertForDisplay(x: Recipient, rs: seq<Recipient>): (r: seq<Recipient>)
    ensures |r| == |rs| + 1
  {
    if rs == [] then [x]
    else if DisplayedBefore(x, rs[0]) then [x] + rs
    else [rs[0]] + InsertForDisplay(x, rs[1..])
  }

  lemma {:induction false} InsertPermutes(x: Recipient, rs: seq<Recipient>)
    ensures multiset(InsertForDisplay(x, rs)) == multiset(rs) + multiset{x}
  {
    if rs != [] && !DisplayedBefore(x, rs[0]) {
      InsertPermutes(x, rs[1..]);
      assert rs == [rs[0]] + rs[1..];
    }
  }

  /** Anything that may precede `x` and all of `rs` may precede every element after insertion. */
  lemma {:induction false} InsertKeepsLowerBound(b: Recipient, x: Recipient, rs: seq<Recipient>)
    requires DisplayedBefore(b, x)
    requires forall k :: 0 <= k < |rs| ==> DisplayedBefore(b, rs[k])
    ensures forall k :: 0 <= k < |InsertForDisplay(x, rs)| ==> DisplayedBefore(b, InsertForDisplay(x, rs)[k])
  {
    if rs != [] && !DisplayedBefore(x, rs[0]) {
      InsertKeepsLowerBound(b, x, rs[1..]);
    }
  }

  lemma {:induction false} InsertSorted(x: Recipient, rs: seq<Recipient>)
    requires SortedForDisplay(rs)
    ensures SortedForDisplay(InsertForDisplay(x, rs))
  {
    if rs != [] {
      if DisplayedBefore(x, rs[0]) {
        var r := [x] + rs;
        forall i, j | 0 <= i < j < |r|
          ensures DisplayedBefore(r[i], r[j])
        {
          if i == 0 {
            assert DisplayedBefore(rs[0], r[j]);
          }
        }
      } else {
        var tail := InsertForDisplay(x, rs[1..]);
        InsertSorted(x, rs[1..]);
        InsertKeepsLowerBound(rs[0], x, rs[1..]);
        var r := [rs[0]] + tail;
        forall i, j | 0 <= i < j < |r|
          ensures DisplayedBefore(r[i], r[j])
        {
          assert r[j] == tail[j - 1];
          if i > 0 {
            assert r[i] == tail[i - 1];
          }
        }
      }
    }
  }

  /** `sortBy(roleRecipients, [signing order, 'asc'], [id, 'asc'])`, as an insertion sort. */
  function SortForDisplay(rs: seq<Recipient>): (r: seq<Recipient>)
    ensures |r| == |rs|
  {
    if rs == [] then [] else InsertForDisplay(rs[0], SortForDisplay(rs[1..]))
  }

  /** The display order is sorted and a permutation of the role's list. */
  lemma {:induction false} SortForDisplayCorrect(rs: seq<Recipient>)
    ensures SortedForDisplay(SortForDisplay(rs))
    ensures multiset(SortForDisplay(rs)) == multiset(rs)
  {
    if rs != [] {
      var sortedTail := SortForDisplay(rs[1..]);
      SortForDisplayCorrect(rs[1..]);
      InsertSorted(rs[0], sortedTail);
      InsertPermutes(rs[0], sortedTail);
      assert rs == [rs[0]] + rs[1..];
    }
  }

  predicate IsDisplayedRole(role: RecipientRole) {
    role != CC && role != Viewer && role != Assistant
  }

  /** `recipientsByRoleToDisplay`: the entries of the role record minus CC, viewers and assistants, each list sorted. */
  function RecipientsByRoleToDisplay(byRole: map<RecipientRole, seq<Recipient>>): (groups: seq<(RecipientRole, seq<Recipient>)>)
    requires forall role :: role in byRole
    ensures groups == [(Signer, SortForDisplay(byRole[Signer])), (Approver, SortForDisplay(byRole[Approver]))]
  {
    var shown := Filter(Roles, IsDisplayedRole);
    assert shown == [Signer, Approver];
    Map(shown, role => (role, SortForDisplay(byRole[role])))
  }

  /** A role's list, sorted for display, is a sorted permutation of that role's recipients and holds no one else. */
  lemma SortedBucketFacts(recipients: seq<Recipient>, role: RecipientRole)
    ensures var shown := SortForDisplay(RoleBucket(recipients, role));
      && SortedForDisplay(shown)
      && multiset(shown) == multiset(RoleBucket(recipients, role))
      && forall i :: 0 <= i < |shown| ==> shown[i].role == role
  {
    var bucket := RoleBucket(recipients, role);
    var shown := SortForDisplay(bucket);
    SortForDisplayCorrect(bucket);
    forall i | 0 <= i < |shown|
      ensures shown[i].role == role
    {
      assert shown[i] in multiset(bucket);
    }
  }

  /**
   * Applied to the role lists of a recipient list, the picker shows a signer
   * group and then an approver group; each holds exactly the recipients of
   * its role, as a permutation sorted by signing order and id, so no CC,
   * viewer or assistant is ever shown.
   */
  lemma DisplayGroupsOfRecipients(recipients: seq<Recipient>, byRole: map<RecipientRole, seq<Recipient>>)
    requires forall role :: role in byRole
    requires forall role :: role in byRole ==> byRole[role] == RoleBucket(recipients, role)
    ensures var groups := RecipientsByRoleToDisplay(byRole);
      && |groups| == 2 && groups[0].0 == Signer && groups[1].0 == Approver
      && SortedForDisplay(groups[0].1) && SortedForDisplay(groups[1].1)
      && multiset(groups[0].1) == multiset(RoleBucket(recipients, Signer))
      && multiset(groups[1].1) == multiset(RoleBucket(recipients, Approver))
      && (forall i :: 0 <= i < |groups[0].1| ==> groups[0].1[i].role == Signer)
      && (forall i :: 0 <= i < |groups[1].1| ==> groups[1].1[i].role == Approver)
  {
    assert byRole[Signer] == RoleBucket(recipients, Signer);
    assert byRole[Approver] == RoleBucket(recipients, Approver);
    SortedBucketFacts(recipients, Signer);
    SortedBucketFacts(recipients, Approver);
  }

  // ---------------------------------------------------------------- default signer

  /** Candidates for the selected signer: anyone but CC recipients and assistants. */
  predicate IsSelectableSigner(r: Recipient) {
    r.role != CC && r.role != Assistant
  }

  predicate IsUnsent(r: Recipient) {
    r.sendStatus != Sent
  }

  /** The effect that picks the selected signer when the recipients change. */
  function DefaultSigner(recipients: seq<Recipient>): (r: Option<Recipient>)
    ensures r.None? <==> forall i :: 0 <= i < |recipients| ==> !IsSelectableSigner(recipients[i])
    ensures r.Some? ==> r.value in recipients && IsSelectableSigner(r.value)
  {
    var selectable := Filter(recipients, IsSelectableSigner);
    assert forall i :: 0 <= i < |recipients| && IsSelectableSigner(recipients[i]) ==> selectable != [];
    match Find(selectable, IsUnsent)
    case Some(r) => Some(r)
    case None => if selectable == [] then None else Some(selectable[0])
  }

  /** The default is the first selectable recipient who has not been sent the document ... */
  lemma DefaultSignerIsFirstUnsent(recipients: seq<Recipient>, k: nat)
    requires k < |recipients| && IsSelectableSigner(recipients[k]) && IsUnsent(recipients[k])
    requires forall j :: 0 <= j < k ==> !(IsSelectableSigner(recipients[j]) && IsUnsent(recipients[j]))
    ensures DefaultSigner(recipients) == Some(recipients[k])
  {
    FindInFilter(recipients, IsSelectableSigner, IsUnsent, k);
  }

  /** ... and, when every selectable recipient has been sent it, the first selectable recipient. */
  lemma DefaultSignerFallsBackToFirst(recipients: seq<Recipient>, k: nat)
    requires k < |recipients| && IsSelectableSigner(recipients[k])
    requires forall j :: 0 <= j < k ==> !IsSelectableSigner(recipients[j])
    requires forall i :: 0 <= i < |recipients| && IsSelectableSigner(recipients[i]) ==> !IsUnsent(recipients[i])
    ensures DefaultSigner(recipients) == Some(recipients[k])
  {
    var selectable := Filter(recipients, IsSelectableSigner);
    FilterFirst(recipients, IsSelectableSigner, k);
    assert forall i :: 0 <= i < |selectable| ==> !IsUnsent(selectable[i]);
  }

  // ---------------------------------------------------------------- the signature gate

  predicate IsSignatureType(t: FieldType) {
    t == Signature || t == FreeSignature
  }

  function IsSignatureFieldOf(recipientId: int): FormField -> bool {
    (f: FormField) => IsSignatureType(f.fieldType) && f.recipientId == recipientId
  }

  /** Some signature or free-signature field is assigned to `signer`. */
  function SignerHasSignature(fields: seq<FormField>, signer: Recipient): (b: bool)
    ensures b <==> exists i :: 0 <= i < |fields| && IsSignatureType(fields[i].fieldType) && fields[i].recipientId == signer.id
  {
    Any(fields, IsSignatureFieldOf(signer.id))
  }

  /** `everySignerHasSignature`: every SIGNER recipient has a signature field. */
  function EverySignerHasSignature(recipients: seq<Recipient>, fields: seq<FormField>): (b: bool)
    ensures b <==> forall i :: 0 <= i < |recipients| && recipients[i].role == Signer ==> SignerHasSignature(fields, recipients[i])
  {
    var signers := RoleBucket(recipients, Signer);
    All(signers, s => SignerHasSignature(fields, s))
  }

  datatype NextStepOutcome =
    | MissingSignatureDialog   // the dialog opens and nothing is submitted
    | UninsertedFieldsInvalid  // uninserted-field validation is switched on and fails
    | Submitted                // uninserted-field validation passes and the form is submitted

  /**
   * `handleGoNextClick`. `uninsertedFieldsValid` is what the external
   * `validateFieldsUninserted` returns.
   */
  function HandleGoNextClick(recipients: seq<Recipient>, fields: seq<FormField>, uninsertedFieldsValid: bool): (o: NextStepOutcome)
    ensures o == MissingSignatureDialog <==>
      exists i :: 0 <= i < |recipients| && recipients[i].role == Signer && !SignerHasSignature(fields, recipients[i])
    ensures o == Submitted <==> EverySignerHasSignature(recipients, fields) && uninsertedFieldsValid
    ensures o == Submitted ==>
      forall i :: 0 <= i < |recipients| && recipients[i].role == Signer ==>
        exists j :: 0 <= j < |fields| && IsSignatureType(fields[j].fieldType) && fields[j].recipientId == recipients[i].id
  {
    if !EverySignerHasSignature(recipients, fields) then MissingSignatureDialog
    else if !uninsertedFieldsValid then UninsertedFieldsInvalid
    else Submitted
  }

  // ---------------------------------------------------------------- editing the field list

  /**
   * The field duplicate and paste append: it differs from its source only in
   * a new form id, the selected signer if any, and a move by 3 on both axes.
   */
  function CopyOfField(source: FormField, formId: string, selectedSigner: Option<Recipient>): (c: FormField)
    ensures c.formId == formId
    ensures c.pageX == source.pageX + 3.0 && c.pageY == source.pageY + 3.0
    ensures c.recipientId == (if selectedSigner.Some? then selectedSigner.value.id else source.recipientId)
    ensures c.(formId := source.formId, recipientId := source.recipientId, pageX := source.pageX, pageY := source.pageY) == source
  {
    source.(
      formId := formId,
      recipientId := match selectedSigner case Some(s) => s.id case None => source.recipientId,
      pageX := source.pageX + 3.0,
      pageY := source.pageY + 3.0)
  }

  predicate UniqueFormIds(fields: seq<FormField>) {
    forall i, j :: 0 <= i < j < |fields| ==> fields[i].formId != fields[j].formId
  }

  predicate FormIdUnused(fields: seq<FormField>, formId: string) {
    forall i :: 0 <= i < |fields| ==> fields[i].formId != formId
  }

  /** Appending a copy under an unused form id keeps form ids unique. */
  lemma AppendCopyKeepsFormIdsUnique(fields: seq<FormField>, source: FormField, formId: string, selectedSigner: Option<Recipient>)
    requires UniqueFormIds(fields) && FormIdUnused(fields, formId)
    ensures UniqueFormIds(fields + [CopyOfField(source, formId, selectedSigner)])
  {
  }

  function SetMetaIfTarget(target: Option<string>, meta: FieldMeta): FormField -> FormField {
    (f: FormField) => if target == Some(f.formId) then f.(fieldMeta := Some(meta)) else f
  }

  /**
   * `handleSavedFieldSettings`: the list keeps its length and every field
   * keeps everything but its settings; the settings become `meta` on the
   * fields whose form id is the current field's and nowhere else.
   */
  function WithFieldMeta(fields: seq<FormField>, target: Option<string>, meta: FieldMeta): (r: seq<FormField>)
    ensures |r| == |fields|
    ensures forall i :: 0 <= i < |fields| ==> r[i].(fieldMeta := fields[i].fieldMeta) == fields[i]
    ensures forall i :: 0 <= i < |fields| ==>
      r[i].fieldMeta == (if target == Some(fields[i].formId) then Some(meta) else fields[i].fieldMeta)
  {
    Map(fields, SetMetaIfTarget(target, meta))
  }

  /**
   * With unique form ids, saving settings changes at most one field, keeps the
   * ids unique, and with no current field (or an id no field has) changes nothing.
   */
  lemma SavedSettingsTouchOneField(fields: seq<FormField>, target: Option<string>, meta: FieldMeta)
    requires UniqueFormIds(fields)
    ensures var r := WithFieldMeta(fields, target, meta);
      && UniqueFormIds(r)
      && (forall i, j :: 0 <= i < |fields| && 0 <= j < |fields| && i != j && r[i] != fields[i] ==> r[j] == fields[j])
      && ((target.None? || FormIdUnused(fields, target.value)) ==> r == fields)
  {
    var r := WithFieldMeta(fields, target, meta);
    forall i, j | 0 <= i < |fields| && 0 <= j < |fields| && i != j && r[i] != fields[i]
      ensures r[j] == fields[j]
    {
      assert target == Some(fields[i].formId);
      assert fields[i].formId != fields[j].formId by {
        if i < j {} else {}
      }
    }
  }

  /**
   * The editor state behind the field list: the form's fields, the field that
   * last had focus, the field clipboard, the selected signer and the field
   * whose advanced settings are open.
   */
  class FieldEditor {
    var fields: seq<FormField>
    var lastActiveField: Option<FormField>
    var fieldClipboard: Option<FormField>
    var selectedSigner: Option<Recipient>
    var currentField: Option<FormField>

    constructor (fields: seq<FormField>)
      ensures this.fields == fields
      ensures lastActiveField == None && fieldClipboard == None
      ensures selectedSigner == None && currentField == None
    {
      this.fields := fields;
      lastActiveField := None;
      fieldClipboard := None;
      selectedSigner := None;
      currentField := None;
    }

    /** The effect on `recipients`: select the default signer. */
    method SelectDefaultSigner(recipients: seq<Recipient>)
      modifies this`selectedSigner
      ensures selectedSigner == DefaultSigner(recipients)
    {
      var candidates := Filter(recipients, IsSelectableSigner);
      selectedSigner := Find(candidates, IsUnsent);
      if selectedSigner.None? && candidates != [] {
        selectedSigner := Some(candidates[0]);
      }
    }

    /** A field gains focus (`onFocus`) or loses it (`onBlur`). */
    method SetLastActiveField(field: Option<FormField>)
      modifies this`lastActiveField
      ensures lastActiveField == field
    {
      lastActiveField := field;
    }

    /** The advanced-settings button of a field. */
    method OpenAdvancedSettings(field: FormField)
      modifies this`currentField
      ensures currentField == Some(field)
    {
      currentField := Some(field);
    }

    /**
     * `onFieldCopy`: with no focused field nothing happens; a plain copy puts
     * the focused field on the clipboard and appends nothing; a duplicate
     * appends a copy of it and leaves the clipboard alone.
     */
    method OnFieldCopy(duplicate: bool, freshFormId: string)
      modifies this`fields, this`fieldClipboard
      ensures lastActiveField.None? ==> fields == old(fields) && fieldClipboard == old(fieldClipboard)
      ensures lastActiveField.Some? && !duplicate ==> fields == old(fields) && fieldClipboard == lastActiveField
      ensures lastActiveField.Some? && duplicate ==>
        && fieldClipboard == old(fieldClipboard)
        && fields == old(fields) + [CopyOfField(lastActiveField.value, freshFormId, selectedSigner)]
      ensures UniqueFormIds(old(fields)) && FormIdUnused(old(fields), freshFormId) ==> UniqueFormIds(fields)
    {
      if lastActiveField.Some? {
        if !duplicate {
          fieldClipboard := lastActiveField;
          return;
        }
        var newField := CopyOfField(lastActiveField.value, freshFormId, selectedSigner);
        if UniqueFormIds(fields) && FormIdUnused(fields, freshFormId) {
          AppendCopyKeepsFormIdsUnique(fields, lastActiveField.value, freshFormId, selectedSigner);
        }
        fields := fields + [newField];
      }
    }

    /** `onFieldPaste`: append a copy of the clipboard field, if there is one. */
    method OnFieldPaste(freshFormId: string)
      modifies this`fields
      ensures fieldClipboard.None? ==> fields == old(fields)
      ensures fieldClipboard.Some? ==>
        fields == old(fields) + [CopyOfField(fieldClipboard.value, freshFormId, selectedSigner)]
      ensures UniqueFormIds(old(fields)) && FormIdUnused(old(fields), freshFormId) ==> UniqueFormIds(fields)
    {
      if fieldClipboard.Some? {
        var copiedField := fieldClipboard.value;
        if UniqueFormIds(fields) && FormIdUnused(fields, freshFormId) {
          AppendCopyKeepsFormIdsUnique(fields, copiedField, freshFormId, selectedSigner);
        }
        fields := fields + [CopyOfField(copiedField, freshFormId, selectedSigner)];
      }
    }

    /** A field's remove button: drop the field at `index`, keeping the others in order. */
    method RemoveField(index: nat)
      requires index < |fields|
      modifies this`fields
      ensures fields == old(fields)[..index] + old(fields)[index + 1..]
      ensures |fields| == |old(fields)| - 1
      ensures UniqueFormIds(old(fields)) ==> UniqueFormIds(fields)
    {
      fields := fields[..index] + fields[index + 1..];
    }

    /** Going back from the first step removes every field. */
    method RemoveAllFields()
      modifies this`fields
      ensures fields == []
    {
      fields := [];
    }

    /** `handleSavedFieldSettings`. */
    method HandleSavedFieldSettings(meta: FieldMeta)
      modifies this`fields
      ensures fields == WithFieldMeta(old(fields), if currentField.Some? then Some(currentField.value.formId) else None, meta)
      ensures UniqueFormIds(old(fields)) ==> UniqueFormIds(fields)
    {
      var target := if currentField.Some? then Some(currentField.value.formId) else None;
      if UniqueFormIds(fields) {
        SavedSettingsTouchOneField(fields, target, meta);
      }
      fields := WithFieldMeta(fields, target, meta);
    }
  }
}

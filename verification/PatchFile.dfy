/** replace_in_file and patch_file on one stored file: all or nothing, and how a
    patch compares with the same edits made one call at a time.

    A stored file is its decoded text, with a leading U+FEFF standing for the
    encoded byte order mark. */
module PatchFile {
  import opened Prelude
  import opened EditText
  import opened EditEngine
  import opened EditApply
  import opened EditTheory
  import opened EditShift

  const MAX_FILE_SIZE_BYTES: nat := 1024 * 1024
  const MAX_CONTENT_SIZE_BYTES: nat := 1024 * 1024
  const MAX_PATCH_EDITS: nat := 32
  const MAX_REPLACEMENTS: nat := 100
  const BOM: char := '\U{FEFF}'

  datatype Edit = Edit(target: string, insert: string, expected: int)

  datatype PatchError =
    | InvalidArguments
    | ContentTooLarge
    | FileTooLarge
    | BinaryFile
    | Rejected(error: EditError, failedEdit: nat)

  // ----- sizes and reading -----

  function CharBytes(c: char): nat {
    var code := c as int;
    if code < 0x80 then 1 else if code < 0x800 then 2 else if code < 0x1_0000 then 3 else 4
  }

  function Utf8Size(s: string): nat {
    if s == "" then 0 else CharBytes(s[0]) + Utf8Size(s[1..])
  }

  predicate HasBom(raw: string) {
    raw != "" && raw[0] == BOM
  }

  function TextOf(raw: string): string {
    if HasBom(raw) then raw[1..] else raw
  }

  function RawOf(bom: bool, text: string): string {
    if bom then [BOM] + text else text
  }

  /** The checks every edit makes before it reads the text. */
  function ReadCheck(looksBinary: string -> bool, raw: string): Option<PatchError> {
    if Utf8Size(raw) > MAX_FILE_SIZE_BYTES then Some(FileTooLarge)
    else if looksBinary(raw) then Some(BinaryFile)
    else None
  }

  // ----- argument checks -----

  function CheckEdit(e: Edit): Option<PatchError> {
    if e.target == "" then Some(InvalidArguments)
    else if !(1 <= e.expected <= MAX_REPLACEMENTS) then Some(InvalidArguments)
    else if Utf8Size(e.target) > MAX_CONTENT_SIZE_BYTES || Utf8Size(e.insert) > MAX_CONTENT_SIZE_BYTES then
      Some(ContentTooLarge)
    else None
  }

  function CheckEdits(edits: seq<Edit>): Option<PatchError> {
    if edits == [] then None
    else
      var earlier := CheckEdits(edits[..|edits| - 1]);
      if earlier.Some? then earlier else CheckEdit(edits[|edits| - 1])
  }

  // ----- folding edits -----

  function ApplyEdit(text: string, e: Edit): Result<(string, nat), EditError>
    requires CheckEdit(e) == None
  {
    EditResult(text, e.target, e.insert, e.expected)
  }

  lemma ChecksPrefix(edits: seq<Edit>)
    requires edits != [] && CheckEdits(edits) == None
    ensures CheckEdits(edits[..|edits| - 1]) == None && CheckEdit(edits[|edits| - 1]) == None
  {
  }

  lemma {:induction false} ChecksEach(edits: seq<Edit>, k: nat)
    requires CheckEdits(edits) == None && k < |edits|
    ensures CheckEdit(edits[k]) == None && CheckEdits(edits[..k]) == None
  {
    ChecksPrefix(edits);
    var init := edits[..|edits| - 1];
    if k < |init| {
      ChecksEach(init, k);
      assert init[..k] == edits[..k];
    }
  }

  /** The left fold of single edits: the final text with every count, or the first
      rejection with the number of the edit it names. */
  function FoldEdits(text: string, edits: seq<Edit>): Result<(string, seq<nat>), PatchError>
    requires CheckEdits(edits) == None
  {
    if edits == [] then Ok((text, []))
    else
      ChecksPrefix(edits);
      match FoldEdits(text, edits[..|edits| - 1])
      case Err(error) => Err(error)
      case Ok((working, counts)) =>
        match ApplyEdit(working, edits[|edits| - 1])
        case Err(error) => Err(Rejected(error, |edits|))
        case Ok((after, applied)) => Ok((after, counts + [applied]))
  }

  function Sum(counts: seq<nat>): nat {
    if counts == [] then 0 else Sum(counts[..|counts| - 1]) + counts[|counts| - 1]
  }

  datatype Committed = Committed(raw: string, replacements: nat)

  /** Size check and publication of an edited text. */
  function Commit(raw: string, after: string, replacements: nat): Result<Committed, PatchError> {
    var encoded := RawOf(HasBom(raw), after);
    if Utf8Size(encoded) > MAX_FILE_SIZE_BYTES then Err(ContentTooLarge)
    else Ok(Committed(encoded, replacements))
  }

  function ReplaceOutcome(looksBinary: string -> bool, raw: string, e: Edit): Result<Committed, PatchError> {
    if CheckEdit(e).Some? then Err(CheckEdit(e).value)
    else if ReadCheck(looksBinary, raw).Some? then Err(ReadCheck(looksBinary, raw).value)
    else
      match ApplyEdit(TextOf(raw), e)
      case Err(error) => Err(Rejected(error, 1))
      case Ok((after, applied)) => Commit(raw, after, applied)
  }

  function PatchOutcome(looksBinary: string -> bool, raw: string, edits: seq<Edit>): Result<Committed, PatchError> {
    if !(1 <= |edits| <= MAX_PATCH_EDITS) then Err(InvalidArguments)
    else if CheckEdits(edits).Some? then Err(CheckEdits(edits).value)
    else if ReadCheck(looksBinary, raw).Some? then Err(ReadCheck(looksBinary, raw).value)
    else
      match FoldEdits(TextOf(raw), edits)
      case Err(error) => Err(error)
      case Ok((after, counts)) => Commit(raw, after, Sum(counts))
  }

  /** One file of the workspace, as the tools read and publish it. */
  class StoredFile {
    var raw: string

    constructor (content: string)
      ensures raw == content
    {
      raw := content;
    }

    method Publish(after: string, replacements: nat) returns (r: Result<Committed, PatchError>)
      modifies this
      ensures r == Commit(old(raw), after, replacements)
      ensures raw == if r.Ok? then r.value.raw else old(raw)
    {
      var encoded := RawOf(HasBom(raw), after);
      if Utf8Size(encoded) > MAX_FILE_SIZE_BYTES {
        return Err(ContentTooLarge);
      }
      if encoded != raw {
        raw := encoded;
      }
      return Ok(Committed(encoded, replacements));
    }

    method ReplaceInFile(looksBinary: string -> bool, e: Edit) returns (r: Result<Committed, PatchError>)
      modifies this
      ensures r == ReplaceOutcome(looksBinary, old(raw), e)
      ensures raw == if r.Ok? then r.value.raw else old(raw)
    {
      hide EditResult, Utf8Size;
      if CheckEdit(e).Some? {
        return Err(CheckEdit(e).value);
      }
      if ReadCheck(looksBinary, raw).Some? {
        return Err(ReadCheck(looksBinary, raw).value);
      }
      var edited := ApplyOneEdit(TextOf(raw), e.target, e.insert, e.expected);
      if edited.Err? {
        return Err(Rejected(edited.error, 1));
      }
      r := Publish(edited.value.0, edited.value.1);
    }

    /** Every edit is applied in memory first; one rejection leaves the file alone. */
    method Patch(looksBinary: string -> bool, edits: seq<Edit>) returns (r: Result<Committed, PatchError>)
      modifies this
      ensures r == PatchOutcome(looksBinary, old(raw), edits)
      ensures raw == if r.Ok? then r.value.raw else old(raw)
    {
      hide Utf8Size, CheckEdits, FoldEdits;
      if !(1 <= |edits| <= MAX_PATCH_EDITS) {
        return Err(InvalidArguments);
      }
      var problem := ParseEdits(edits);
      if problem.Some? {
        return Err(problem.value);
      }
      var bad := ReadCheck(looksBinary, raw);
      if bad.Some? {
        return Err(bad.value);
      }
      var folded := ApplyInMemory(TextOf(raw), edits);
      match folded
      case Err(error) =>
        return Err(error);
      case Ok((working, counts)) =>
        r := Publish(working, Sum(counts));
    }
  }

  method ParseEdits(edits: seq<Edit>) returns (problem: Option<PatchError>)
    ensures problem == CheckEdits(edits)
  {
    hide CheckEdit;
    for i := 0 to |edits|
      invariant CheckEdits(edits[..i]) == None
    {
      assert edits[..i + 1][..i] == edits[..i];
      if CheckEdit(edits[i]).Some? {
        FirstProblem(edits, i);
        return CheckEdit(edits[i]);
      }
    }
    assert edits[..|edits|] == edits;
    return None;
  }

  method ApplyInMemory(text: string, edits: seq<Edit>) returns (r: Result<(string, seq<nat>), PatchError>)
    requires CheckEdits(edits) == None
    ensures r == FoldEdits(text, edits)
  {
    hide EditResult, CheckEdit;
    var working := text;
    var counts: seq<nat> := [];
    for i := 0 to |edits|
      invariant CheckEdits(edits[..i]) == None
      invariant FoldEdits(text, edits[..i]) == Ok((working, counts))
    {
      ChecksEach(edits, i);
      EditChecked(edits[i]);
      assert edits[..i + 1][..i] == edits[..i] && edits[..i + 1][i] == edits[i];
      var edited := ApplyOneEdit(working, edits[i].target, edits[i].insert, edits[i].expected);
      if edited.Err? {
        FirstRejection(text, edits, i, working, counts, edited.error);
        return Err(Rejected(edited.error, i + 1));
      }
      working := edited.value.0;
      counts := counts + [edited.value.1];
    }
    assert edits[..|edits|] == edits;
    return Ok((working, counts));
  }

  lemma {:induction false} FirstProblem(edits: seq<Edit>, i: nat)
    requires i < |edits| && CheckEdits(edits[..i]) == None && CheckEdit(edits[i]).Some?
    ensures CheckEdits(edits) == CheckEdit(edits[i])
    decreases |edits|
  {
    hide CheckEdit;
    var init := edits[..|edits| - 1];
    if i < |init| {
      assert init[..i] == edits[..i];
      FirstProblem(init, i);
    }
  }

  lemma {:induction false} FirstRejection(text: string, edits: seq<Edit>, i: nat, working: string, counts: seq<nat>, error: EditError)
    requires CheckEdits(edits) == None && i < |edits|
    requires CheckEdits(edits[..i]) == None && FoldEdits(text, edits[..i]) == Ok((working, counts))
    requires CheckEdit(edits[i]) == None && ApplyEdit(working, edits[i]) == Err(error)
    ensures FoldEdits(text, edits) == Err(Rejected(error, i + 1))
    decreases |edits|
  {
    hide CheckEdit, ApplyEdit;
    var init := edits[..|edits| - 1];
    ChecksPrefix(edits);
    if i < |init| {
      assert init[..i] == edits[..i];
      FirstRejection(text, init, i, working, counts, error);
    }
  }

  /** A rejection names the first edit whose prefix fold rejects it. */
  lemma {:induction false} RejectionIsFirst(text: string, edits: seq<Edit>)
    requires CheckEdits(edits) == None && FoldEdits(text, edits).Err?
    ensures exists error, k: nat :: FoldEdits(text, edits) == Err(Rejected(error, k + 1)) && RejectsAt(text, edits, k, error)
    decreases |edits|
  {
    hide CheckEdit, ApplyEdit, RejectsAt;
    var init := edits[..|edits| - 1];
    ChecksPrefix(edits);
    if FoldEdits(text, init).Err? {
      RejectionIsFirst(text, init);
      var error, k: nat :| FoldEdits(text, init) == Err(Rejected(error, k + 1)) && RejectsAt(text, init, k, error);
      RejectsLater(text, edits, k, error);
    } else {
      LastRejects(text, edits);
    }
  }

  /** The edits before this one fold without error, and this one is then rejected. */
  ghost predicate RejectsAt(text: string, edits: seq<Edit>, k: nat, error: EditError) {
    && k < |edits| && CheckEdits(edits[..k]) == None && CheckEdit(edits[k]) == None
    && FoldEdits(text, edits[..k]).Ok? && ApplyEdit(FoldEdits(text, edits[..k]).value.0, edits[k]) == Err(error)
  }

  lemma RejectsLater(text: string, edits: seq<Edit>, k: nat, error: EditError)
    requires edits != [] && RejectsAt(text, edits[..|edits| - 1], k, error)
    ensures RejectsAt(text, edits, k, error)
  {
    hide CheckEdit, ApplyEdit, FoldEdits, CheckEdits;
    var init := edits[..|edits| - 1];
    assert init[..k] == edits[..k] && init[k] == edits[k];
  }

  lemma LastRejects(text: string, edits: seq<Edit>)
    requires edits != [] && CheckEdits(edits) == None && FoldEdits(text, edits).Err?
    requires CheckEdits(edits[..|edits| - 1]) == None && FoldEdits(text, edits[..|edits| - 1]).Ok?
    ensures exists error :: FoldEdits(text, edits) == Err(Rejected(error, |edits|)) && RejectsAt(text, edits, |edits| - 1, error)
  {
    hide CheckEdit, ApplyEdit;
    ChecksPrefix(edits);
    var error := ApplyEdit(FoldEdits(text, edits[..|edits| - 1]).value.0, edits[|edits| - 1]).error;
    assert RejectsAt(text, edits, |edits| - 1, error);
  }

  // ----- the outcome, case by case -----

  /** The size of a text is that of its characters: one byte up to U+007F, two up to
      U+07FF, three up to U+FFFF and four beyond. */
  lemma {:induction false} SizeConcat(a: string, b: string)
    ensures Utf8Size(a + b) == Utf8Size(a) + Utf8Size(b)
  {
    if a == "" {
      assert a + b == b;
    } else {
      SizeConcat(a[1..], b);
      assert (a + b)[1..] == a[1..] + b;
    }
  }

  lemma SizeOfOne(c: char)
    ensures Utf8Size([c]) == if c <= '\U{7F}' then 1 else if c <= '\U{7FF}' then 2 else if c <= '\U{FFFF}' then 3 else 4
  {
    assert [c][1..] == "";
  }

  /** An edit has something to look for and a number of replacements from 1 to 100. */
  predicate Asks(e: Edit) {
    |e.target| > 0 && 0 < e.expected <= 100
  }

  predicate Sized(e: Edit) {
    Utf8Size(e.target) <= 1_048_576 && Utf8Size(e.insert) <= 1_048_576
  }

  predicate AllFine(edits: seq<Edit>) {
    forall k :: 0 <= k < |edits| ==> Asks(edits[k]) && Sized(edits[k])
  }

  /** Edit `k` is the first with something wrong. */
  predicate WrongFirst(edits: seq<Edit>, k: nat) {
    k < |edits| && !(Asks(edits[k]) && Sized(edits[k])) && AllFine(edits[..k])
  }

  lemma {:induction false} ChecksExactly(edits: seq<Edit>)
    ensures CheckEdits(edits) == None <==> AllFine(edits)
    ensures forall k: nat :: WrongFirst(edits, k) ==>
              CheckEdits(edits) == Some(if Asks(edits[k]) then ContentTooLarge else InvalidArguments)
  {
    hide Asks, Sized;
    if edits != [] {
      var init, e := edits[..|edits| - 1], edits[|edits| - 1];
      ChecksExactly(init);
      CheckExactly(e);
      assert edits == init + [e];
      forall k: nat | WrongFirst(edits, k) ensures k < |init| ==> WrongFirst(init, k) {
        assert k < |init| ==> init[..k] == edits[..k];
      }
      assert edits[..|init|] == init;
    }
  }

  lemma CheckExactly(e: Edit)
    ensures CheckEdit(e) == if !Asks(e) then Some(InvalidArguments) else if !Sized(e) then Some(ContentTooLarge) else None
  {
  }

  /** The text of a file: without one byte order mark at its start. */
  function Unmarked(raw: string): string {
    if ['\U{FEFF}'] <= raw then raw[1..] else raw
  }

  /** What is published: the mark, if the file had one, and the text, unless it is over 1 MiB. */
  function Published(raw: string, after: string, replacements: nat): Result<Committed, PatchError> {
    var encoded := if ['\U{FEFF}'] <= raw then ['\U{FEFF}'] + after else after;
    if Utf8Size(encoded) <= 1_048_576 then Ok(Committed(encoded, replacements)) else Err(ContentTooLarge)
  }

  /** The whole of a patch: one to thirty-two edits; the first wrong one refused by its
      arguments before its sizes; then a file over 1 MiB, then one that looks binary; then
      the first edit rejected; and what the fold gives is published if it fits. */
  lemma PatchOutcomeExactly(looksBinary: string -> bool, raw: string, edits: seq<Edit>, k: nat)
    ensures var r := PatchOutcome(looksBinary, raw, edits);
            && (edits == [] || |edits| > 32 ==> r == Err(InvalidArguments))
            && (1 <= |edits| <= 32 ==>
                  && (WrongFirst(edits, k) ==> r == Err(if Asks(edits[k]) then ContentTooLarge else InvalidArguments))
                  && (AllFine(edits) ==> CheckEdits(edits) == None && Decided(looksBinary, raw, edits, r)))
  {
    hide AllFine, WrongFirst, CheckEdits, FoldEdits, Asks, Utf8Size;
    ChecksExactly(edits);
    assert ['\U{FEFF}'] <= raw <==> HasBom(raw);
  }

  ghost predicate Decided(looksBinary: string -> bool, raw: string, edits: seq<Edit>, r: Result<Committed, PatchError>)
    requires CheckEdits(edits) == None
  {
    if Utf8Size(raw) > 1_048_576 then r == Err(FileTooLarge)
    else if looksBinary(raw) then r == Err(BinaryFile)
    else
      match FoldEdits(Unmarked(raw), edits)
      case Err(error) => r == Err(error)
      case Ok((after, counts)) => r == Published(raw, after, Sum(counts))
  }

  /** `replace_in_file` is a patch of one edit. */
  lemma ReplaceIsPatchOfOne(looksBinary: string -> bool, raw: string, e: Edit)
    ensures ReplaceOutcome(looksBinary, raw, e) == PatchOutcome(looksBinary, raw, [e])
  {
    hide EditResult, CheckEdit, Commit, ReadCheck;
    assert [e][..0] == [] && [e][0] == e;
    assert CheckEdits([e]) == CheckEdit(e);
    if CheckEdit(e) == None {
      FoldOfOne(TextOf(raw), e);
    }
  }

  lemma FoldOfOne(text: string, e: Edit)
    requires CheckEdit(e) == None
    ensures CheckEdits([e]) == None
    ensures FoldEdits(text, [e]) == match ApplyEdit(text, e)
                                    case Err(error) => Err(Rejected(error, 1))
                                    case Ok((after, applied)) => Ok((after, [applied]))
    ensures forall n: nat :: Sum([n]) == n
  {
    hide EditResult, CheckEdit;
    assert [e][..0] == [] && [e][0] == e;
    assert CheckEdits([]) == None;
    assert FoldEdits(text, []) == Ok((text, []));
    assert [e][..|[e]| - 1] == [];
    match ApplyEdit(text, e)
    case Err(_) =>
    case Ok((_, applied)) => assert [] + [applied] == [applied];
    forall n: nat ensures Sum([n]) == n {
      assert [n][..0] == [];
    }
  }

  // ----- a patch against successive calls -----

  /** The file after one call per edit, stopping at the first failure. */
  function Successive(looksBinary: string -> bool, raw: string, edits: seq<Edit>): Result<string, PatchError> {
    if edits == [] then Ok(raw)
    else
      match Successive(looksBinary, raw, edits[..|edits| - 1])
      case Err(error) => Err(error)
      case Ok(current) =>
        match ReplaceOutcome(looksBinary, current, edits[|edits| - 1])
        case Err(error) => Err(error)
        case Ok(committed) => Ok(committed.raw)
  }

  /** The text the fold has reached, if it gets that far. */
  ghost predicate Reaches(raw: string, edits: seq<Edit>, text: string) {
    CheckEdits(edits) == None && FoldEdits(TextOf(raw), edits).Ok? && FoldEdits(TextOf(raw), edits).value.0 == text
  }

  /** Every text an edit of the patch starts from passes the read checks. */
  ghost predicate AllReadable(looksBinary: string -> bool, raw: string, edits: seq<Edit>) {
    forall k, text :: 0 <= k < |edits| && Reaches(raw, edits[..k], text) ==>
                        ReadCheck(looksBinary, RawOf(HasBom(raw), text)) == None
  }

  /** An edit of a text that begins with a byte order mark the file did not have is not
      about the mark: its target is not found there. */
  predicate SparesMark(text: string, e: Edit) {
    HasBom(text) ==> !MatchesAt(NormalizeNewlines(text), NormalizeNewlines(e.target), 0)
  }

  ghost predicate MarkSpared(raw: string, edits: seq<Edit>) {
    HasBom(raw) ||
    forall k, text :: 0 <= k < |edits| && Reaches(raw, edits[..k], text) ==> SparesMark(text, edits[k])
  }

  lemma RereadText(bom: bool, text: string)
    requires !bom ==> !HasBom(text)
    ensures HasBom(RawOf(bom, text)) == bom && TextOf(RawOf(bom, text)) == text
  {
    if bom {
      assert ([BOM] + text)[1..] == text;
    }
  }

  lemma RawAgain(raw: string)
    ensures RawOf(HasBom(raw), TextOf(raw)) == raw
  {
    if HasBom(raw) { assert [BOM] + raw[1..] == raw; }
  }

  /** One call on a file that holds a text of the fold does to it what the fold does, if
      it passes the read checks and the result is not too large. */
  lemma CallFollowsEdit(looksBinary: string -> bool, bom: bool, text: string, e: Edit)
    requires CheckEdit(e) == None && (bom || SparesMark(text, e))
    ensures ReplaceOutcome(looksBinary, RawOf(bom, text), e) ==
            if ReadCheck(looksBinary, RawOf(bom, text)).Some? then Err(ReadCheck(looksBinary, RawOf(bom, text)).value)
            else
              match ApplyEdit(text, e)
              case Err(error) => Err(Rejected(error, 1))
              case Ok((after, applied)) =>
                if Utf8Size(RawOf(bom, after)) > MAX_FILE_SIZE_BYTES then Err(ContentTooLarge)
                else Ok(Committed(RawOf(bom, after), applied))
  {
    hide EditResult, Utf8Size, ReadCheck, MatchesAt;
    EditChecked(e);
    if bom || !HasBom(text) {
      RereadText(bom, text);
    } else {
      assert text == [BOM] + text[1..];
      EditShifts(BOM, text[1..], e.target, e.insert, e.expected);
    }
  }

  lemma ReadableNext(looksBinary: string -> bool, raw: string, init: seq<Edit>, e: Edit, text: string)
    requires Reaches(raw, init, text)
    ensures AllReadable(looksBinary, raw, init + [e]) <==>
            AllReadable(looksBinary, raw, init) && ReadCheck(looksBinary, RawOf(HasBom(raw), text)) == None
  {
    hide Reaches, ReadCheck;
    var edits := init + [e];
    assert forall k :: 0 <= k <= |init| ==> edits[..k] == init[..k];
    assert init[..|init|] == init;
    if AllReadable(looksBinary, raw, edits) {
      assert Reaches(raw, edits[..|init|], text);
      forall k, t | 0 <= k < |init| && Reaches(raw, init[..k], t) ensures ReadCheck(looksBinary, RawOf(HasBom(raw), t)) == None {
        assert Reaches(raw, edits[..k], t);
      }
    }
    if AllReadable(looksBinary, raw, init) && ReadCheck(looksBinary, RawOf(HasBom(raw), text)) == None {
      forall k, t | 0 <= k < |edits| && Reaches(raw, edits[..k], t) ensures ReadCheck(looksBinary, RawOf(HasBom(raw), t)) == None {
        if k == |init| {
          OneText(raw, init, t, text);
        } else {
          assert Reaches(raw, init[..k], t);
        }
      }
    }
  }

  lemma OneText(raw: string, edits: seq<Edit>, a: string, b: string)
    requires Reaches(raw, edits, a) && Reaches(raw, edits, b)
    ensures a == b
  {
  }

  lemma SparedNext(raw: string, init: seq<Edit>, e: Edit)
    requires MarkSpared(raw, init + [e])
    ensures MarkSpared(raw, init)
    ensures forall text :: Reaches(raw, init, text) ==> HasBom(raw) || SparesMark(text, e)
  {
    hide Reaches, SparesMark;
    var edits := init + [e];
    assert forall k :: 0 <= k <= |init| ==> edits[..k] == init[..k];
    assert init[..|init|] == init && edits[|init|] == e;
    forall k, text | 0 <= k < |init| && Reaches(raw, init[..k], text) && !HasBom(raw) ensures SparesMark(text, init[k]) {
      assert Reaches(raw, edits[..k], text) && edits[k] == init[k];
    }
    forall text | Reaches(raw, init, text) && !HasBom(raw) ensures SparesMark(text, e) {
      assert Reaches(raw, edits[..|init|], text);
    }
  }

  /** One call for each edit leaves a file exactly when the fold succeeds with its text,
      every text on the way passes the read checks, and the last one is not too large. */
  lemma {:induction false} SuccessiveExactly(looksBinary: string -> bool, raw: string, edits: seq<Edit>, result: string)
    requires CheckEdits(edits) == None && MarkSpared(raw, edits)
    ensures Successive(looksBinary, raw, edits) == Ok(result) <==>
            && FoldEdits(TextOf(raw), edits).Ok?
            && result == RawOf(HasBom(raw), FoldEdits(TextOf(raw), edits).value.0)
            && AllReadable(looksBinary, raw, edits)
            && (edits != [] ==> Utf8Size(result) <= MAX_FILE_SIZE_BYTES)
    decreases |edits|
  {
    if edits == [] {
      RawAgain(raw);
    } else {
      hide AllReadable, MarkSpared, SparesMark, ReadCheck, ReplaceOutcome;
      var init, e := edits[..|edits| - 1], edits[|edits| - 1];
      assert edits == init + [e];
      ChecksPrefix(edits);
      SparedNext(raw, init, e);
      if FoldEdits(TextOf(raw), init).Ok? {
        var text := FoldEdits(TextOf(raw), init).value.0;
        var current := RawOf(HasBom(raw), text);
        assert Reaches(raw, init, text);
        ReadableNext(looksBinary, raw, init, e, text);
        CallFollowsEdit(looksBinary, HasBom(raw), text, e);
        SuccessiveExactly(looksBinary, raw, init, current);
        ReadableFits(looksBinary, current);
        if Successive(looksBinary, raw, init).Ok? {
          SuccessiveExactly(looksBinary, raw, init, Successive(looksBinary, raw, init).value);
        }
        LastCall(looksBinary, raw, edits, text, result);
      } else if Successive(looksBinary, raw, init).Ok? {
        SuccessiveExactly(looksBinary, raw, init, Successive(looksBinary, raw, init).value);
      }
    }
  }

  lemma ReadableFits(looksBinary: string -> bool, raw: string)
    ensures ReadCheck(looksBinary, raw) == None ==> Utf8Size(raw) <= MAX_FILE_SIZE_BYTES
  {
  }

  lemma LastCall(looksBinary: string -> bool, raw: string, edits: seq<Edit>, text: string, result: string)
    requires edits != [] && CheckEdits(edits) == None && CheckEdit(edits[|edits| - 1]) == None
    requires var init := edits[..|edits| - 1]; CheckEdits(init) == None && Reaches(raw, init, text)
    ensures var e := edits[|edits| - 1];
            && (FoldEdits(TextOf(raw), edits).Ok? <==> ApplyEdit(text, e).Ok?)
            && (ApplyEdit(text, e).Ok? ==> FoldEdits(TextOf(raw), edits).value.0 == ApplyEdit(text, e).value.0)
    ensures var e := edits[|edits| - 1];
            Successive(looksBinary, raw, edits) == Ok(result) <==>
            exists current :: Successive(looksBinary, raw, edits[..|edits| - 1]) == Ok(current) &&
                              ReplaceOutcome(looksBinary, current, e).Ok? && ReplaceOutcome(looksBinary, current, e).value.raw == result
  {
    hide ApplyEdit, ReplaceOutcome, CheckEdit;
    var before := Successive(looksBinary, raw, edits[..|edits| - 1]);
    if Successive(looksBinary, raw, edits) == Ok(result) {
      assert before == Ok(before.value);
    }
  }

  /** Successive replace_in_file calls all succeed and leave a file exactly when patch_file
      succeeds with that same file and every text on the way passes the read checks, as
      long as no edit is about a byte order mark an earlier edit put in front. */
  lemma PatchEqualsSuccessive(looksBinary: string -> bool, raw: string, edits: seq<Edit>, result: string)
    requires 1 <= |edits| <= MAX_PATCH_EDITS && CheckEdits(edits) == None && MarkSpared(raw, edits)
    ensures Successive(looksBinary, raw, edits) == Ok(result) <==>
            && PatchOutcome(looksBinary, raw, edits).Ok? && PatchOutcome(looksBinary, raw, edits).value.raw == result
            && AllReadable(looksBinary, raw, edits)
  {
    hide CheckEdits, CheckEdit, ApplyEdit, Utf8Size, FoldEdits, Successive, AllReadable, MarkSpared, ReadCheck;
    SuccessiveExactly(looksBinary, raw, edits, result);
    if AllReadable(looksBinary, raw, edits) {
      FirstIsReadable(looksBinary, raw, edits);
    }
  }

  lemma FirstIsReadable(looksBinary: string -> bool, raw: string, edits: seq<Edit>)
    requires edits != [] && AllReadable(looksBinary, raw, edits)
    ensures ReadCheck(looksBinary, raw) == None
  {
    assert edits[..0] == [];
    assert Reaches(raw, edits[..0], TextOf(raw));
    RawAgain(raw);
  }

  lemma {:induction false} SuccessiveConcat(looksBinary: string -> bool, raw: string, a: seq<Edit>, b: seq<Edit>)
    ensures Successive(looksBinary, raw, a + b) ==
            match Successive(looksBinary, raw, a)
            case Err(error) => Err(error)
            case Ok(current) => Successive(looksBinary, current, b)
    decreases |b|
  {
    hide ReplaceOutcome;
    if b == [] {
      assert a + b == a;
    } else {
      var init := b[..|b| - 1];
      assert (a + b)[..|a + b| - 1] == a + init;
      SuccessiveConcat(looksBinary, raw, a, init);
    }
  }

  lemma {:induction false} ChecksFrom(edits: seq<Edit>, k: nat)
    requires CheckEdits(edits) == None && k <= |edits|
    ensures CheckEdits(edits[k..]) == None && CheckEdits(edits[..k]) == None
    decreases |edits|
  {
    hide CheckEdit;
    if k < |edits| {
      ChecksPrefix(edits);
      var init := edits[..|edits| - 1];
      ChecksFrom(init, k);
      assert edits[k..][..|edits[k..]| - 1] == init[k..] && init[..k] == edits[..k];
    } else {
      assert edits[..k] == edits;
    }
  }

  /** Once an edit has put a byte order mark in front of a file without one, successive
      calls go on as a patch of the file that begins with the mark: the text after it. */
  lemma SuccessiveFromMark(looksBinary: string -> bool, raw: string, edits: seq<Edit>, k: nat, marked: string, result: string)
    requires 1 <= k < |edits| <= MAX_PATCH_EDITS && CheckEdits(edits) == None && !HasBom(raw)
    requires MarkSpared(raw, edits[..k]) && Reaches(raw, edits[..k], marked) && HasBom(marked)
    ensures Successive(looksBinary, raw, edits) == Ok(result) <==>
            && AllReadable(looksBinary, raw, edits[..k]) && AllReadable(looksBinary, marked, edits[k..])
            && PatchOutcome(looksBinary, marked, edits[k..]).Ok?
            && PatchOutcome(looksBinary, marked, edits[k..]).value.raw == result
  {
    hide CheckEdits, CheckEdit, ApplyEdit, Utf8Size, FoldEdits, Successive, AllReadable, ReadCheck, PatchOutcome;
    ChecksFrom(edits, k);
    assert edits == edits[..k] + edits[k..];
    SuccessiveConcat(looksBinary, raw, edits[..k], edits[k..]);
    SuccessiveExactly(looksBinary, raw, edits[..k], marked);
    PatchEqualsSuccessive(looksBinary, marked, edits[k..], result);
    var first := Successive(looksBinary, raw, edits[..k]);
    if first.Ok? {
      SuccessiveExactly(looksBinary, raw, edits[..k], first.value);
    }
    if AllReadable(looksBinary, marked, edits[k..]) {
      FirstIsReadable(looksBinary, marked, edits[k..]);
      ReadableFits(looksBinary, marked);
    }
  }

  // ----- folds of plain edits -----

  function PlainFold(n: string, edits: seq<Edit>): string
    requires CheckEdits(edits) == None
  {
    if edits == [] then n
    else
      ChecksPrefix(edits);
      var e := edits[|edits| - 1];
      NormalizedHasNoCr(e.target);
      PlainEdit(PlainFold(n, edits[..|edits| - 1]), NormalizeNewlines(e.target), NormalizeNewlines(e.insert))
  }

  /** On a single-style file a whole patch is the fold of plain edits. */
  lemma {:induction false} SingleStylePatch(text: string, edits: seq<Edit>)
    requires CheckEdits(edits) == None && SingleStyle(text) && FoldEdits(text, edits).Ok?
    ensures var after := FoldEdits(text, edits).value.0;
            && NormalizeNewlines(after) == PlainFold(NormalizeNewlines(text), edits)
            && SingleStyle(after) && Terminal(after) == Terminal(text)
    decreases |edits|
  {
    hide NormalizeNewlines, SingleStyle, Terminal, PlainEdit, CheckEdit, Spliced, PreserveTerminal, Render, CountMatches;
    if edits != [] {
      ChecksPrefix(edits);
      var init, e := edits[..|edits| - 1], edits[|edits| - 1];
      SingleStylePatch(text, init);
      EditChecked(e);
      SingleStyleEdit(FoldEdits(text, init).value.0, e.target, e.insert);
    }
  }

  lemma EditChecked(e: Edit)
    requires CheckEdit(e) == None
    ensures e.target != "" && e.expected >= 0
  {
  }

  // ----- why the byte order mark matters -----

  predicate NoNewlines(s: string) {
    '\r' !in s && '\n' !in s
  }

  lemma {:induction false} PlainIsNormal(s: string)
    requires NoNewlines(s)
    ensures NormalizeNewlines(s) == s && Newlines(Parse(s)) == 0 && SingleStyle(s)
  {
    TwoPassAgrees(s);
    PlainUnits(s);
    AllPlain(Parse(s));
    NoNewlinesUniform(Parse(s), Lf);
    StyleKept(s, Lf);
  }

  lemma {:induction false} PlainUnits(s: string)
    requires NoNewlines(s)
    ensures Parse(s) == seq(|s|, i requires 0 <= i < |s| => Plain(s[i]))
  {
    if s != "" {
      PlainUnits(s[1..]);
      assert s == [s[0]] + s[1..];
    }
  }

  lemma {:induction false} AllPlain(us: Units)
    requires forall i :: 0 <= i < |us| ==> us[i].Plain?
    ensures Newlines(us) == 0
  {
    if us != [] {
      AllPlain(us[..|us| - 1]);
    }
  }

  lemma NormalIsPlain(s: string)
    requires NoNewlines(NormalizeNewlines(s))
    ensures NormalizeNewlines(s) == s
  {
    TwoPassAgrees(s);
    var us := Parse(s);
    RenderParse(s);
    forall i | 0 <= i < |us| ensures us[i] == Plain(NormalizeNewlines(s)[i]) {
      assert Chars(us)[i] == UnitChar(us[i]);
    }
    PlainRender(us, NormalizeNewlines(s));
  }

  lemma {:induction false} PlainRender(us: Units, n: string)
    requires |us| == |n| && forall i :: 0 <= i < |us| ==> us[i] == Plain(n[i])
    ensures Render(us) == n
  {
    if us != [] {
      PlainRender(us[1..], n[1..]);
      assert n == [n[0]] + n[1..];
    }
  }

  /** Without newlines anywhere an edit is `replace` itself. */
  lemma PlainTextEdit(text: string, target: string, insert: string, expected: nat)
    requires target != "" && NoNewlines(text) && NoNewlines(target) && NoNewlines(ReplaceAll(text, target, insert))
    requires NoNewlines(insert)
    ensures EditResult(text, target, insert, expected) ==
            if CountMatches(text, target) == 0 then Err(MatchNotFound)
            else if CountMatches(text, target) != expected then Err(AmbiguousMatch)
            else Ok((ReplaceAll(text, target, insert), expected))
  {
    hide NormalizeNewlines, Spliced, Render, PreserveTerminal, Terminal, SingleStyle, ReplaceAll, CountMatches;
    PlainIsNormal(text);
    PlainIsNormal(target);
    PlainIsNormal(insert);
    SingleStyleEdit(text, target, insert);
    NormalIsPlain(PreserveTerminal(Render(Spliced(text, target, insert)), text));
  }

  const MARKED: string := [BOM, 'x']

  lemma BomSizes()
    ensures Utf8Size("x") == 1 && Utf8Size(MARKED) == 4 && Utf8Size([BOM]) == 3 && Utf8Size("") == 0
  {
    assert "x"[1..] == "" && MARKED[1..] == "x" && [BOM][1..] == "";
  }

  lemma WholeReplaced(target: string, rest: string, insert: string)
    requires target != ""
    ensures ReplaceAll(target + rest, target, insert) == insert + ReplaceAll(rest, target, insert)
    ensures CountMatches(target + rest, target) == 1 + CountMatches(rest, target)
  {
    assert (target + rest)[..|target|] == target && (target + rest)[|target|..] == rest;
  }

  lemma OtherKept(c: char, d: char, insert: string)
    requires c != d
    ensures ReplaceAll([c], [d], insert) == [c]
    ensures CountMatches([c], [d]) == 0
  {
    assert [c][..1][0] != [d][0];
    ShortText("", [d], insert);
    assert [c][1..] == "";
  }

  lemma MarkEdit()
    ensures EditResult("x", "x", MARKED, 1) == Ok((MARKED, 1))
  {
    hide EditResult, ReplaceAll, CountMatches;
    WholeReplaced("x", "", MARKED);
    ShortText("", "x", MARKED);
    assert "x" + "" == "x" && MARKED + "" == MARKED;
    PlainTextEdit("x", "x", MARKED, 1);
  }

  lemma UnmarkEdit()
    ensures EditResult(MARKED, [BOM], "", 1) == Ok(("x", 1))
    ensures EditResult("x", [BOM], "", 1) == Err(MatchNotFound)
  {
    hide EditResult, ReplaceAll, CountMatches;
    WholeReplaced([BOM], "x", "");
    OtherKept('x', BOM, "");
    assert [BOM] + "x" == MARKED && ['x'] == "x" && "" + "x" == "x";
    PlainTextEdit(MARKED, [BOM], "", 1);
    PlainTextEdit("x", [BOM], "", 1);
  }

  /** An edit that puts U+FEFF first in a file without a byte order mark: a patch
      can go on to match it, a second call reads it as the mark and cannot. */
  lemma BomBreaksSuccessive(looksBinary: string -> bool, first: Edit, second: Edit)
    requires !looksBinary("x") && !looksBinary(MARKED)
    requires first == Edit("x", MARKED, 1) && second == Edit([BOM], "", 1)
    ensures PatchOutcome(looksBinary, "x", [first, second]) == Ok(Committed("x", 2))
    ensures Successive(looksBinary, "x", [first, second]) == Err(Rejected(MatchNotFound, 1))
  {
    hide EditResult, Utf8Size;
    BomSizes();
    MarkEdit();
    UnmarkEdit();
    assert CheckEdit(first) == None && CheckEdit(second) == None;
    var edits := [first, second];
    assert edits[..1] == [first] && [first][..0] == [];
    assert CheckEdits([first]) == None && CheckEdits(edits) == None;
    assert FoldEdits("x", [first]) == Ok((MARKED, [] + [1]));
    assert [] + [1] == [1] && [1] + [1] == [1, 1];
    assert FoldEdits("x", edits) == Ok(("x", [1, 1]));
    assert [1, 1][..1] == [1] && [1][..0] == [];
    assert Sum([1]) == 1 && Sum([1, 1]) == 2;
    assert Successive(looksBinary, "x", [first]) == Ok(MARKED) by { MarkCall(looksBinary, first); }
    assert MARKED[1..] == "x";
  }

  lemma MarkCall(looksBinary: string -> bool, first: Edit)
    requires !looksBinary("x") && first == Edit("x", MARKED, 1)
    ensures Successive(looksBinary, "x", [first]) == Ok(MARKED)
  {
    hide EditResult, Utf8Size;
    BomSizes();
    MarkEdit();
    assert [first][..0] == [];
    assert !HasBom("x");
    assert Successive(looksBinary, "x", []) == Ok("x");
  }
}

/** The pure rules of the acquisition package: short codes, first-touch decisions, scan counting. */
module AcquisitionPolicy {
  import opened Common
  import opened Text

  const CODE_ALPHABET := "ABCDEFGHJKMNPQRSTUVWXYZ23456789"
  const CODE_LENGTH := 8

  predicate WellFormedCode(s: string) {
    |s| == CODE_LENGTH && forall i :: 0 <= i < |s| ==> s[i] in CODE_ALPHABET
  }

  /** A code as stored, or the empty string for anything that cannot be one. */
  function NormalizeCode(raw: string): (code: string)
    ensures code == "" || WellFormedCode(code)
  {
    var s := Upper(Trim(raw));
    if WellFormedCode(s) then s else ""
  }

  /** Every character of the alphabet is its own capital and not a blank. */
  lemma AlphabetChars(c: char)
    requires c in CODE_ALPHABET
    ensures 'A' <= c <= 'Z' || '2' <= c <= '9'
  {
    var k :| 0 <= k < |CODE_ALPHABET| && CODE_ALPHABET[k] == c;
    AlphabetAt(k);
  }

  lemma AlphabetAt(k: nat)
    requires k < |CODE_ALPHABET|
    ensures 'A' <= CODE_ALPHABET[k] <= 'Z' || '2' <= CODE_ALPHABET[k] <= '9'
  {
  }

  /** Where each character of the alphabet stands. */
  lemma LetterAt(k: nat)
    requires k < |CODE_ALPHABET|
    ensures CODE_ALPHABET[k] as int ==
      if k < 8 then 'A' as int + k
      else if k < 10 then 'J' as int + k - 8
      else if k < 12 then 'M' as int + k - 10
      else if k < 23 then 'P' as int + k - 12
      else '2' as int + k - 23
  {
  }

  predicate Readable(c: char) {
    ('A' <= c <= 'Z' && c != 'I' && c != 'L' && c != 'O') || '2' <= c <= '9'
  }

  /** Capital letters without I, L and O, and digits without 0 and 1. */
  lemma AlphabetIs(c: char)
    ensures c in CODE_ALPHABET <==> Readable(c)
  {
    if c in CODE_ALPHABET {
      var k :| 0 <= k < |CODE_ALPHABET| && CODE_ALPHABET[k] == c;
      LetterAt(k);
    }
    if Readable(c) {
      ReadableIsThere(c);
    }
  }

  lemma ReadableIsThere(c: char)
    requires Readable(c)
    ensures c in CODE_ALPHABET
  {
    var k := if c < 'I' && c >= 'A' then c as int - 'A' as int
             else if 'J' <= c <= 'K' then c as int - 'J' as int + 8
             else if 'M' <= c <= 'N' then c as int - 'M' as int + 10
             else if 'P' <= c then c as int - 'P' as int + 12
             else c as int - '2' as int + 23;
    LetterAt(k);
    assert CODE_ALPHABET[k] == c;
  }

  /** Exactly the texts that are a code but for blanks and case have one, and it is that code. */
  lemma NormalizeFinds(before: string, code: string, after: string)
    requires (forall c :: c in before ==> IsSpace(c)) && (forall c :: c in after ==> IsSpace(c))
    ensures WellFormedCode(code) ==> NormalizeCode(before + code + after) == code == NormalizeCode(before + Lower(code) + after)
    ensures NormalizeCode(code) == "" <==> !WellFormedCode(Upper(Trim(code)))
  {
    if WellFormedCode(code) {
      NormalizeForgives(before, code, after);
      CodeIsItself(code);
    }
  }

  lemma CodeIsItself(code: string)
    requires WellFormedCode(code)
    ensures NormalizeCode(code) == code
  {
    forall i | 0 <= i < |code| ensures !IsSpace(code[i]) && UpperChar(code[i]) == code[i] {
      AlphabetChars(code[i]);
    }
    assert Trim(code) == code;
    assert Upper(code) == code;
  }

  lemma Idempotent(raw: string)
    ensures NormalizeCode(NormalizeCode(raw)) == NormalizeCode(raw)
  {
    var code := NormalizeCode(raw);
    if code != "" {
      CodeIsItself(code);
    } else {
      assert Trim(code) == "";
    }
  }

  /** Normalising is idempotent, so a stored code is found as it stands; and it forgives blanks around a code
      and lower case in it. */
  lemma NormalizeForgives(before: string, raw: string, after: string)
    requires (forall c :: c in before ==> IsSpace(c)) && (forall c :: c in after ==> IsSpace(c))
    ensures NormalizeCode(NormalizeCode(raw)) == NormalizeCode(raw)
    ensures NormalizeCode(before + raw + after) == NormalizeCode(raw) == NormalizeCode(before + Lower(raw) + after)
  {
    Idempotent(raw);
    TrimPadded(before, raw, after);
    SameCode(before + raw + after, raw);
    TrimPadded(before, Lower(raw), after);
    TrimLower(raw);
    UpperLower(Trim(raw));
    SameCode(before + Lower(raw) + after, raw);
  }

  lemma SameCode(a: string, b: string)
    requires Upper(Trim(a)) == Upper(Trim(b))
    ensures NormalizeCode(a) == NormalizeCode(b)
  {
  }

  datatype Reason =
    | Applied | CodeAbsent | CodeMalformed | CodeNotFound | CodeDisabled | TenantMismatch | AlreadyAttributed
    | StorageError

  /** `DecideApply`: the first red line that is crossed gives the reason. */
  function DecideApply(raw: string, found: bool, active: bool, codeTenant: nat, tenant: nat, alreadySet: bool): (r: Reason)
    ensures r == Applied <==> NormalizeCode(raw) != "" && found && active && codeTenant == tenant != 0 && !alreadySet
    ensures r == CodeAbsent <==> Trim(raw) == ""
    ensures r == CodeMalformed <==> Trim(raw) != "" && NormalizeCode(raw) == ""
    ensures r == CodeNotFound <==> NormalizeCode(raw) != "" && !found
    ensures r == CodeDisabled <==> NormalizeCode(raw) != "" && found && !active
    ensures r == TenantMismatch <==> NormalizeCode(raw) != "" && found && active && (codeTenant != tenant || tenant == 0)
  {
    if NormalizeCode(raw) == "" then
      if Trim(raw) == "" then CodeAbsent else CodeMalformed
    else if !found then CodeNotFound
    else if !active then CodeDisabled
    else if codeTenant != tenant || tenant == 0 then TenantMismatch
    else if alreadySet then AlreadyAttributed
    else Applied
  }

  const SCAN_DEDUPE_WINDOW: int := 10 * MINUTE

  /** `ShouldCountScan` */
  predicate ShouldCountScan(visitorKey: string, lastSeen: Option<int>, now: int) {
    Trim(visitorKey) == "" || lastSeen.None? || now - lastSeen.value >= SCAN_DEDUPE_WINDOW
  }

  /** The edges of the window of ten minutes. */
  lemma CountsAtTheEdge(visitorKey: string, last: int, now: int)
    requires Trim(visitorKey) != ""
    ensures ShouldCountScan(visitorKey, None, now)
    ensures ShouldCountScan(visitorKey, Some(last), now) <==> now >= last + 600 * 1_000_000_000
  {
  }
}

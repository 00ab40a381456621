/** scripts/nac_hw_bridge.py: reading the values of a request. */
module OperatorRequests {
  import opened Text

  datatype Error =
    | NotDemoRepo | MissingField | TooLong | ControlCharacters | UnknownStatus
    | NotFound | AlreadyProcessed | ImportFileMissing
    | UploadUnreadable | UploadNotSynthetic

  datatype Result<+T> = Ok(value: T) | Err(error: Error) {
    predicate IsFailure() { Err? }
    function PropagateFailure<U>(): Result<U> requires Err? { Err(error) }
    function Extract(): T requires Ok? { value }
  }

  datatype Status = Open | Waiting | Completed

  /** `clean_text`. */
  function Clean(value: string, maxLength: nat): Result<string> {
    var text := Strip(value);
    if |text| > maxLength then Err(TooLong)
    else if exists c <- text :: c as int < 32 && c != '\t' then Err(ControlCharacters)
    else Ok(text)
  }

  function CleanText(value: string): Result<string> { Clean(value, 512) }

  function Or(value: string, default: string): string { if value == "" then default else value }

  function RequiredText(value: string): Result<string> {
    var text :- CleanText(value);
    if text == "" then Err(MissingField) else Ok(text)
  }

  function NormalizeStatus(value: string): Result<Status> {
    var status := Lower(Strip(Or(value, "open")));
    if status in {"intake", "open", "offen", "active"} then Ok(Open)
    else if status in {"waiting", "warten", "blocked"} then Ok(Waiting)
    else if status in {"completed", "abgeschlossen", "closed"} then Ok(Completed)
    else Err(UnknownStatus)
  }

  function StatusText(status: Status): string {
    match status case Open => "open" case Waiting => "waiting" case Completed => "completed"
  }

  /** A cleaned value is clean. */
  lemma {:induction false} CleanIsIdempotent(value: string, maxLength: nat)
    ensures Clean(value, maxLength).Ok? ==> Clean(Clean(value, maxLength).value, maxLength) == Clean(value, maxLength)
  {
    StripIsIdempotent(value);
  }

  /** Stored words and their aliases, German ones among them, are read in any mixture of capitals; no status means open. */
  lemma {:induction false} StatusReadsBack(word: string)
    ensures Lower(word) in {"intake", "open", "offen", "active"} ==> NormalizeStatus(word) == Ok(Open)
    ensures Lower(word) in {"waiting", "warten", "blocked"} ==> NormalizeStatus(word) == Ok(Waiting)
    ensures Lower(word) in {"completed", "abgeschlossen", "closed"} ==> NormalizeStatus(word) == Ok(Completed)
    ensures NormalizeStatus("") == Ok(Open)
    ensures forall status :: NormalizeStatus(StatusText(status)) == Ok(status)
  {
    hide Strip;
    if word != "" && !IsSpace(Lower(word)[0]) && !IsSpace(Lower(word)[|word| - 1]) {
      StripOfSolid(word);
    }
    NoStatusIsOpen();
    forall status ensures NormalizeStatus(StatusText(status)) == Ok(status) { StatusTextReadsBack(status); }
  }

  lemma {:induction false} StatusTextReadsBack(status: Status)
    ensures NormalizeStatus(StatusText(status)) == Ok(status)
  {
    hide Strip;
    StripOfSolid(StatusText(status));
    assert Lower(StatusText(status)) == StatusText(status);
  }

  lemma {:induction false} NoStatusIsOpen()
    ensures NormalizeStatus("") == Ok(Open)
  {
    hide Strip;
    StripOfSolid("open");
    assert Lower("open") == "open";
  }

  // ---- Values that are clean already ----

  predicate Printable(s: string) { forall k :: 0 <= k < |s| ==> s[k] as int >= 32 || s[k] == '\t' }

  /** Nothing to strip and no control character. */
  predicate Tight(s: string) { s == "" || (!IsSpace(s[0]) && !IsSpace(s[|s| - 1]) && Printable(s)) }

  lemma {:induction false} TightIsClean(s: string, maxLength: nat)
    requires Tight(s)
    ensures Clean(s, maxLength) == if |s| <= maxLength then Ok(s) else Err(TooLong)
  {
    hide Strip;
    if s == "" { NothingToStrip(); } else { StripOfSolid(s); }
  }

  lemma {:induction false} NothingToStrip()
    ensures Strip("") == ""
  {
  }

  lemma {:induction false} CleanIsTight(value: string, maxLength: nat)
    requires Clean(value, maxLength).Ok?
    ensures Tight(Clean(value, maxLength).value) && |Clean(value, maxLength).value| <= maxLength
  {
    hide Strip;
    var text := Strip(value);
    StripIsIdempotent(value);
    if text != "" { SolidOfStrip(text); }
    forall k | 0 <= k < |text| ensures text[k] as int >= 32 || text[k] == '\t' { assert text[k] in text; }
  }

  predicate Short(s: string) { Tight(s) && |s| <= 512 }

  lemma {:induction false} ShortOr(value: string, default: string)
    requires Short(value) && Short(default)
    ensures CleanText(Or(value, default)) == Ok(Or(value, default)) && Short(Or(value, default))
  {
    hide Clean, Tight;
    TightIsClean(Or(value, default), 512);
  }

  // ---- What a given text stands for ----

  /** The given text, or the default where nothing is given, without the blanks around it. */
  function Taken(given: string, default: string): string { Strip(if given == "" then default else given) }

  /** That text is short enough and holds no control character. */
  predicate Usable(given: string, default: string, maxLength: nat) {
    |Taken(given, default)| <= maxLength && Printable(Taken(given, default))
  }

  lemma {:induction false} CleanTakes(given: string, default: string, maxLength: nat)
    ensures Clean(Or(given, default), maxLength).Ok? <==> Usable(given, default, maxLength)
    ensures Usable(given, default, maxLength) ==> Clean(Or(given, default), maxLength).value == Taken(given, default)
  {
    hide Strip;
    var text := Taken(given, default);
    if Printable(text) {
      forall c <- text ensures c as int >= 32 || c == '\t' {
        var k :| 0 <= k < |text| && text[k] == c;
      }
    } else {
      var k :| 0 <= k < |text| && text[k] as int < 32 && text[k] != '\t';
      assert text[k] in text;
    }
  }

  lemma {:induction false} RequiredTakes(given: string)
    ensures RequiredText(given).Ok? <==> Usable(given, "", 512) && Strip(given) != ""
    ensures RequiredText(given).Ok? ==> RequiredText(given).value == Strip(given)
  {
    hide Strip, Clean;
    CleanTakes(given, "", 512);
    assert Or(given, "") == given;
  }

  /** The words of a status, in any mixture of capitals and blanks around; no word at all means open. */
  predicate MeansStatus(given: string, status: Status) {
    var word := Lower(Strip(given));
    match status
    case Open => given == "" || word in {"intake", "open", "offen", "active"}
    case Waiting => word in {"waiting", "warten", "blocked"}
    case Completed => word in {"completed", "abgeschlossen", "closed"}
  }

  lemma {:induction false} StatusTakes(given: string, status: Status)
    ensures NormalizeStatus(given) == Ok(status) <==> MeansStatus(given, status)
  {
    hide Strip, Lower;
    if given == "" {
      NoStatusIsOpen();
      assert Lower(Strip("")) == "" by { NothingToStrip(); NothingToLower(); }
    }
  }

  lemma {:induction false} NothingToLower()
    ensures Lower("") == ""
  {
  }
}

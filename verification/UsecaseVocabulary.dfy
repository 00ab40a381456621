/** The labels of scripts/generate_usecase_bpmn.py hold none of the parts forbidden in names. */
module UsecaseVocabulary {
  import opened Text
  import opened BpmnValidation
  import opened UsecaseBpmn

  // ---- Names without a hint at a secret ----

  /** Every forbidden part holds one of these five triples. */
  predicate Telltale(a: char, b: char, c: char) {
    || ((a == 'w' || a == 'W') && (b == 'o' || b == 'O') && (c == 'r' || c == 'R'))
    || ((a == 'p' || a == 'P') && (b == 'i' || b == 'I') && (c == 'n' || c == 'N'))
    || ((a == 's' || a == 'S') && (b == 'e' || b == 'E') && (c == 'c' || c == 'C'))
    || ((a == 't' || a == 'T') && (b == 'o' || b == 'O') && (c == 'k' || c == 'K'))
    || ((a == 'k' || a == 'K') && (b == 'e' || b == 'E') && (c == 'y' || c == 'Y'))
  }

  predicate TelltaleAt(w: string, i: nat)
    requires i + 2 < |w|
  {
    Telltale(w[i], w[i + 1], w[i + 2])
  }

  predicate Clean(w: string) { forall i :: 0 <= i < |w| - 2 ==> !TelltaleAt(w, i) }

  /** The same for the first `n` characters, six triples at a time. */
  predicate Spotless(w: string, n: nat)
    requires n <= |w|
    decreases n
  {
    && NoneNear(w, n)
    && (n < 9 || Spotless(w, n - 6))
  }

  /** None of the last six triples before `n`. */
  predicate NoneNear(w: string, n: nat)
    requires n <= |w|
  {
    && (n < 3 || !TelltaleAt(w, n - 3)) && (n < 4 || !TelltaleAt(w, n - 4)) && (n < 5 || !TelltaleAt(w, n - 5))
    && (n < 6 || !TelltaleAt(w, n - 6)) && (n < 7 || !TelltaleAt(w, n - 7)) && (n < 8 || !TelltaleAt(w, n - 8))
  }

  lemma {:induction false} SpotlessTriples(w: string, n: nat)
    requires n <= |w| && Spotless(w, n)
    ensures forall i :: 0 <= i < n - 2 ==> !TelltaleAt(w, i)
    decreases n
  {
    hide TelltaleAt;
    if n >= 9 { SpotlessTriples(w, n - 6); }
  }

  lemma {:induction false} CleanWord(w: string, n: nat)
    requires n == |w| && Spotless(w, n)
    ensures Clean(w)
  {
    SpotlessTriples(w, n);
  }

  predicate LowerTriple(a: char, b: char, c: char) {
    || (a == 'w' && b == 'o' && c == 'r') || (a == 'p' && b == 'i' && c == 'n') || (a == 's' && b == 'e' && c == 'c')
    || (a == 't' && b == 'o' && c == 'k') || (a == 'k' && b == 'e' && c == 'y')
  }

  lemma {:induction false} PartHasTelltale(s: string, part: string, i: nat, k: nat)
    requires PartAt(Lower(s), part, i) && k + 2 < |part| && LowerTriple(part[k], part[k + 1], part[k + 2])
    ensures !Clean(s)
  {
    var t := Lower(s)[i..i + |part|];
    assert t[k] == LowerChar(s[i + k]) && t[k + 1] == LowerChar(s[i + k + 1]) && t[k + 2] == LowerChar(s[i + k + 2]);
    LowerTripleIsTelltale(s[i + k], s[i + k + 1], s[i + k + 2]);
    assert TelltaleAt(s, i + k);
  }

  lemma {:induction false} LowerTripleIsTelltale(a: char, b: char, c: char)
    requires LowerTriple(LowerChar(a), LowerChar(b), LowerChar(c))
    ensures Telltale(a, b, c)
  {
  }

  lemma {:induction false} CleanHasNoForbiddenPart(s: string)
    requires Clean(s)
    ensures NoForbiddenPart(s)
  {
    hide Clean, PartAt, Lower;
    forall part <- FORBIDDEN_NAME_PARTS ensures !Contains(Lower(s), part) {
      if Contains(Lower(s), part) {
        var i :| 0 <= i <= |Lower(s)| && PartAt(Lower(s), part, i);
        TelltaleOf(part);
        var k :| 0 <= k < |part| - 2 && LowerTriple(part[k], part[k + 1], part[k + 2]);
        PartHasTelltale(s, part, i, k);
      }
    }
  }

  lemma {:induction false} TelltaleOf(part: string)
    requires part in FORBIDDEN_NAME_PARTS
    ensures exists k :: 0 <= k < |part| - 2 && LowerTriple(part[k], part[k + 1], part[k + 2])
  {
    assert part == "passwort" ==> LowerTriple(part[4], part[5], part[6]);
    assert part == "password" ==> LowerTriple(part[4], part[5], part[6]);
    assert part == "pin" ==> LowerTriple(part[0], part[1], part[2]);
    assert part == "secret" ==> LowerTriple(part[0], part[1], part[2]);
    assert part == "token" ==> LowerTriple(part[0], part[1], part[2]);
    assert part == "api-key" ==> LowerTriple(part[4], part[5], part[6]);
    assert part == "apikey" ==> LowerTriple(part[3], part[4], part[5]);
  }

  lemma {:induction false} CleanPhrase(a: string, b: string)
    requires Clean(a) && Clean(b)
    ensures Clean(a + [' '] + b)
  {
    var s := a + [' '] + b;
    forall i | 0 <= i < |s| - 2 ensures !TelltaleAt(s, i) {
      if i + 2 < |a| {
        assert !TelltaleAt(a, i);
      } else if i > |a| {
        assert !TelltaleAt(b, i - |a| - 1);
      }
    }
  }

  predicate CleanWords(ws: seq<string>) { ws != [] && ws[0] != "" && forall w <- ws :: Clean(w) }

  lemma {:induction false} WordsAreClean(ws: seq<string>)
    requires CleanWords(ws)
    ensures Words(ws) != "" && Clean(Words(ws))
    decreases |ws|
  {
    hide Clean;
    assert ws[0] in ws;
    if |ws| > 1 {
      RestIsClean(ws[1..]);
      CleanPhrase(ws[0], Words(ws[1..]));
    }
  }

  lemma {:induction false} RestIsClean(ws: seq<string>)
    requires ws != [] && forall w <- ws :: Clean(w)
    ensures Clean(Words(ws))
    decreases |ws|
  {
    hide Clean;
    assert ws[0] in ws;
    if |ws| > 1 {
      RestIsClean(ws[1..]);
      CleanPhrase(ws[0], Words(ws[1..]));
    }
  }

  lemma {:induction false} Two(a: string, b: string)
    requires a != "" && Clean(a) && Clean(b)
    ensures CleanWords([a, b])
  {
    hide Clean;
  }

  lemma {:induction false} Three(a: string, b: string, c: string)
    requires a != "" && Clean(a) && Clean(b) && Clean(c)
    ensures CleanWords([a, b, c])
  {
    hide Clean;
  }

  lemma {:induction false} Four(a: string, b: string, c: string, d: string)
    requires a != "" && Clean(a) && Clean(b) && Clean(c) && Clean(d)
    ensures CleanWords([a, b, c, d])
  {
    hide Clean;
  }

  lemma {:induction false} Five(a: string, b: string, c: string, d: string, e: string)
    requires a != "" && Clean(a) && Clean(b) && Clean(c) && Clean(d) && Clean(e)
    ensures CleanWords([a, b, c, d, e])
  {
    hide Clean;
  }

  lemma {:induction false} Six(a: string, b: string, c: string, d: string, e: string, f: string)
    requires a != "" && Clean(a) && Clean(b) && Clean(c) && Clean(d) && Clean(e) && Clean(f)
    ensures CleanWords([a, b, c, d, e, f])
  {
    hide Clean;
  }

  // ---- The vocabulary of the labels ----

  lemma {:induction false} RegisterReviewWords()
    ensures Clean("Registerstand") && Clean("und") && Clean("Anlagen") && Clean("prüfen")
    ensures Clean("Grundbuchstand")
  {
    hide Clean;
    CleanWord("Registerstand", 13);
    CleanWord("und", 3);
    CleanWord("Anlagen", 7);
    CleanWord("prüfen", 6);
    CleanWord("Grundbuchstand", 14);
  }

  lemma {:induction false} WillAndCustodyWords()
    ensures Clean("Unterlagen") && Clean("Verfügungen") && Clean("Verwahrungsweg")
  {
    hide Clean;
    CleanWord("Unterlagen", 10);
    CleanWord("Verfügungen", 11);
    CleanWord("Verwahrungsweg", 14);
  }

  lemma {:induction false} EstateAndFilingWords()
    ensures Clean("Nachlassangaben") && Clean("Nachweise") && Clean("Anmeldung") && Clean("entwerfen")
  {
    hide Clean;
    CleanWord("Nachlassangaben", 15);
    CleanWord("Nachweise", 9);
    CleanWord("Anmeldung", 9);
    CleanWord("entwerfen", 9);
  }

  lemma {:induction false} DeedDraftWords()
    ensures Clean("Urkundenentwurf") && Clean("Vollzugshinweise")
  {
    hide Clean;
    CleanWord("Urkundenentwurf", 15);
    CleanWord("Vollzugshinweise", 16);
  }

  lemma {:induction false} DraftAgreementWords()
    ensures Clean("abstimmen") && Clean("Entwurf") && Clean("Abstimmung") && Clean("erstellen")
  {
    hide Clean;
    CleanWord("abstimmen", 9);
    CleanWord("Entwurf", 7);
    CleanWord("Abstimmung", 10);
    CleanWord("erstellen", 9);
  }

  lemma {:induction false} DeedWords()
    ensures Clean("Beglaubigung") && Clean("oder") && Clean("Beurkundung") && Clean("durchführen")
  {
    hide Clean;
    CleanWord("Beglaubigung", 12);
    CleanWord("oder", 4);
    CleanWord("Beurkundung", 11);
    CleanWord("durchführen", 11);
  }

  lemma {:induction false} SignatureWords()
    ensures Clean("Unterschrift") && Clean("öffentlich") && Clean("beglaubigen") && Clean("Erklärung")
  {
    hide Clean;
    CleanWord("Unterschrift", 12);
    CleanWord("öffentlich", 10);
    CleanWord("beglaubigen", 11);
    CleanWord("Erklärung", 9);
  }

  lemma {:induction false} RegisterSubmissionWords()
    ensures Clean("Registereinreichung") && Clean("ausführen") && Clean("Vollzug")
  {
    hide Clean;
    CleanWord("Registereinreichung", 19);
    CleanWord("ausführen", 9);
    CleanWord("Vollzug", 7);
  }

  lemma {:induction false} LandRegisterAndCustodyWords()
    ensures Clean("Grundbuchkommunikation") && Clean("Verwahrung")
  {
    hide Clean;
    CleanWord("Grundbuchkommunikation", 22);
    CleanWord("Verwahrung", 10);
  }

  lemma {:induction false} NotificationWords()
    ensures Clean("Benachrichtigung") && Clean("Registrierung") && Clean("Versand")
  {
    hide Clean;
    CleanWord("Benachrichtigung", 16);
    CleanWord("Registrierung", 13);
    CleanWord("Versand", 7);
  }

  lemma {:induction false} WorkstationCheckWords()
    ensures Clean("Einreichung") && Clean("Karte,") && Clean("XNP") && Clean("Signaturpfad") && Clean("lokal")
    ensures Clean("Vorgang") && Clean("im")
  {
    hide Clean;
    CleanWord("Einreichung", 11);
    CleanWord("Karte,", 6);
    CleanWord("XNP", 3);
    CleanWord("Signaturpfad", 12);
    CleanWord("lokal", 5);
    CleanWord("Vorgang", 7);
    CleanWord("im", 2);
  }

  lemma {:induction false} OnlineIntakeWords()
    ensures Clean("Online-Verfahren") && Clean("übernehmen")
  {
    hide Clean;
    CleanWord("Online-Verfahren", 16);
    CleanWord("übernehmen", 10);
  }

  lemma {:induction false} AssignmentWords()
    ensures Clean("Sachbearbeitung") && Clean("Aktenzeichen") && Clean("zuweisen")
  {
    hide Clean;
    CleanWord("Sachbearbeitung", 15);
    CleanWord("Aktenzeichen", 12);
    CleanWord("zuweisen", 8);
  }

  lemma {:induction false} OnlineFoundingWords()
    ensures Clean("Gründung,") && Clean("Satzung") && Clean("Registerroute") && Clean("Gründer,")
    ensures Clean("Kapital")
  {
    hide Clean;
    CleanWord("Gründung,", 9);
    CleanWord("Satzung", 7);
    CleanWord("Registerroute", 13);
    CleanWord("Gründer,", 8);
    CleanWord("Kapital", 7);
  }

  lemma {:induction false} OnlineIdentityWords()
    ensures Clean("abgleichen") && Clean("Videokonferenz")
  {
    hide Clean;
    CleanWord("abgleichen", 10);
    CleanWord("Videokonferenz", 14);
  }

  lemma {:induction false} SignaturePreparationWords()
    ensures Clean("Signaturfähigkeit") && Clean("vorbereiten")
  {
    hide Clean;
    CleanWord("Signaturfähigkeit", 17);
    CleanWord("vorbereiten", 11);
  }

  lemma {:induction false} OnlineDeedWords()
    ensures Clean("Online-Beurkundung") && Clean("Registerpaket")
  {
    hide Clean;
    CleanWord("Online-Beurkundung", 18);
    CleanWord("Registerpaket", 13);
  }

  lemma {:induction false} OnlineSubmissionWords()
    ensures Clean("digital") && Clean("einreichen") && Clean("Registerrückläufe")
  {
    hide Clean;
    CleanWord("digital", 7);
    CleanWord("einreichen", 10);
    CleanWord("Registerrückläufe", 17);
  }

  lemma {:induction false} FollowUpAndEndWords()
    ensures Clean("nachhalten") && Clean("abgeschlossen") && Clean("anlegen") && Clean("Auftrag")
  {
    hide Clean;
    CleanWord("nachhalten", 10);
    CleanWord("abgeschlossen", 13);
    CleanWord("anlegen", 7);
    CleanWord("Auftrag", 7);
  }

  lemma {:induction false} IntakeWords()
    ensures Clean("Beteiligte") && Clean("aufnehmen") && Clean("Zuständigkeit,") && Clean("Form")
    ensures Clean("Fristen")
  {
    hide Clean;
    CleanWord("Beteiligte", 10);
    CleanWord("aufnehmen", 9);
    CleanWord("Zuständigkeit,", 14);
    CleanWord("Form", 4);
    CleanWord("Fristen", 7);
  }

  lemma {:induction false} IdentityWords()
    ensures Clean("Identität") && Clean("Vertretung") && Clean("Nachweis")
  {
    hide Clean;
    CleanWord("Identität", 9);
    CleanWord("Vertretung", 10);
    CleanWord("Nachweis", 8);
  }
}

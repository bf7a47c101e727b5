/** pages/TrackerGenerator.tsx: creating a tracked record and the HTML
    snippet that embeds its pixel. */
module TrackerGenerator {
  import opened Wrappers
  import opened Types
  import opened Database
  import opened Storage

  /** "Belirtilmedi" ("not specified"). */
  const RecipientPlaceholder := "Belirtilmedi"
  /** "Hızlı Takip - " ("quick tracking - "), followed by the local time. */
  const SubjectPlaceholderPrefix := "H\U{131}zl\U{131} Takip - "
  /** "Veritabanına kayıt yapılamadı." ("could not save to the database"). */
  const SaveFailedText := "Veritaban\U{131}na kay\U{131}t yap\U{131}lamad\U{131}."
  /** The deployed tracking endpoint, up to and including the `id` parameter name. */
  const TrackUrlPrefix := "https://jnlbhiyazvexttfpuxxe.supabase.co/functions/v1/track?id="

  /** `recipientVal || 'Belirtilmedi'`. */
  function FinalRecipient(recipientVal: string): (r: string)
    ensures r != ""
    ensures recipientVal != "" ==> r == recipientVal
    ensures recipientVal == "" ==> r == RecipientPlaceholder
  {
    if recipientVal != "" then recipientVal else RecipientPlaceholder
  }

  /** `subjectVal || 'Hızlı Takip - ' + localTime`. */
  function FinalSubject(subjectVal: string, localTime: string): (s: string)
    ensures s != ""
    ensures subjectVal != "" ==> s == subjectVal
    ensures subjectVal == "" ==> SubjectPlaceholderPrefix <= s
  {
    if subjectVal != "" then subjectVal else SubjectPlaceholderPrefix + localTime
  }

  /** The record `generateCode` saves: not yet opened, id left to the database. */
  function NewEmail(recipientVal: string, subjectVal: string, trackingId: string,
                    createdAt: Time, localTime: string): (e: TrackedEmail)
    ensures e.status == Sent && e.openedAt == None && e.id == ""
    ensures e.trackingId == trackingId && e.createdAt == createdAt
    ensures OpenedIffStamped(e.status, e.openedAt)
    ensures e.recipient == FinalRecipient(recipientVal) && e.subject == FinalSubject(subjectVal, localTime)
  {
    TrackedEmail("", FinalRecipient(recipientVal), FinalSubject(subjectVal, localTime),
                 createdAt, None, Sent, trackingId)
  }

  /** `searchParams.get("id")` stops at the `&` that starts the next
      parameter or the `#` that starts the fragment; the value is the raw
      text before it. */
  function ValueUntilDelimiter(s: string): (v: string)
    ensures v <= s
    ensures forall i :: 0 <= i < |v| ==> v[i] != '&' && v[i] != '#'
    ensures |v| < |s| ==> s[|v|] == '&' || s[|v|] == '#'
  {
    if s == [] || s[0] == '&' || s[0] == '#' then [] else [s[0]] + ValueUntilDelimiter(s[1..])
  }

  /** The `id` the endpoint reads from a URL built on `TrackUrlPrefix`, where
      `id` is the first query parameter. */
  function IdFromTrackUrl(url: string): Option<string> {
    if TrackUrlPrefix <= url then Some(ValueUntilDelimiter(url[|TrackUrlPrefix|..])) else None
  }

  /** A character the query value carries through unchanged: not a delimiter,
      not one that `searchParams` decodes (`%xx`, `+`), and not a tab or line
      break, which the URL parser removes wherever they occur. */
  predicate QuerySafe(c: char) {
    c != '&' && c != '#' && c != '%' && c != '+' && c != '\t' && c != '\n' && c != '\r'
  }

  /** An id the endpoint reads back from its URL: every character is
      `QuerySafe`, and the last one is neither a space nor a C0 control,
      since the URL parser strips those from the end of the URL. */
  predicate SurvivesUrl(id: string) {
    && (forall i :: 0 <= i < |id| ==> QuerySafe(id[i]))
    && (id != [] ==> id[|id| - 1] > ' ')
  }

  /** The alphabet of `generateTrackingId`: base-36 digits. */
  predicate Base36(id: string) {
    forall i :: 0 <= i < |id| ==> '0' <= id[i] <= '9' || 'a' <= id[i] <= 'z'
  }

  /** `trackingUrl`: the endpoint with `?id=<trackingId>`, the id inserted
      without encoding. The endpoint reads the id back whenever it
      `SurvivesUrl`. */
  function TrackUrl(trackingId: string): (url: string)
    ensures |url| == |TrackUrlPrefix| + |trackingId|
    ensures url[..|TrackUrlPrefix|] == TrackUrlPrefix && url[|TrackUrlPrefix|..] == trackingId
    ensures url[|url| - |trackingId| - 4..|url| - |trackingId|] == "?id="
    ensures SurvivesUrl(trackingId) ==> IdFromTrackUrl(url) == Some(trackingId)
  {
    var url := TrackUrlPrefix + trackingId;
    assert url[|TrackUrlPrefix|..] == trackingId;
    SafeValueIsWhole(trackingId);
    url
  }

  /** A value with no delimiter and no escape is read whole. */
  lemma {:induction false} SafeValueIsWhole(s: string)
    ensures (forall i :: 0 <= i < |s| ==> QuerySafe(s[i])) ==> ValueUntilDelimiter(s) == s
  {
    if s != [] && forall i :: 0 <= i < |s| ==> QuerySafe(s[i]) {
      assert forall i :: 0 <= i < |s[1..]| ==> QuerySafe(s[1..][i]) by {
        forall i | 0 <= i < |s[1..]| ensures QuerySafe(s[1..][i]) {
          assert s[1..][i] == s[i + 1];
        }
      }
      SafeValueIsWhole(s[1..]);
      assert QuerySafe(s[0]);
    }
  }

  /** Every id `generateTrackingId` produces comes back from its URL intact. */
  lemma GeneratedIdRoundTrip(trackingId: string)
    requires Base36(trackingId)
    ensures IdFromTrackUrl(TrackUrl(trackingId)) == Some(trackingId)
  {
    assert SurvivesUrl(trackingId);
  }

  /** An id holding `&` is cut short: the URL for `a&b` carries the id `a`. */
  lemma AmpersandCutsId()
    ensures IdFromTrackUrl(TrackUrl("a&b")) == Some("a")
  {
    var url := TrackUrl("a&b");
    assert url[|TrackUrlPrefix|..] == "a&b";
    assert ValueUntilDelimiter("a&b") == "a" by {
      assert "a&b"[1..] == "&b";
    }
  }

  const ImgHead := "<img src=\""
  const ImgTail := "\" width=\"1\" height=\"1\" alt=\"\" style=\"display:none;\" />"

  /** `htmlCode`: a hidden 1×1 image whose `src` is the tracking URL. */
  function Snippet(trackingId: string): (html: string)
    ensures |html| == |ImgHead| + |TrackUrl(trackingId)| + |ImgTail|
    ensures html[..|ImgHead|] == ImgHead
    ensures html[|ImgHead|..|ImgHead| + |TrackUrl(trackingId)|] == TrackUrl(trackingId)
    ensures html[|ImgHead| + |TrackUrl(trackingId)|..] == ImgTail
  {
    ImgHead + TrackUrl(trackingId) + ImgTail
  }

  /** The component's state (the AI suggestion text comes from an external
      service and is an input here). */
  class GeneratorView {
    var recipient: string
    var subject: string
    var generatedCode: Option<string>
    var copied: bool
    var isGenerating: bool
    var saveError: Option<string>
    var aiLoading: bool
    var aiSuggestions: Option<string>

    constructor ()
      ensures recipient == "" && subject == "" && generatedCode == None && !copied
      ensures !isGenerating && saveError == None && !aiLoading && aiSuggestions == None
    {
      recipient := "";
      subject := "";
      generatedCode := None;
      copied := false;
      isGenerating := false;
      saveError := None;
      aiLoading := false;
      aiSuggestions := None;
    }

    /** `generateCode`. The fresh tracking id, the clock (`createdAt` and the
        local time text) and the id the database assigns are inputs. */
    method GenerateCode(db: Table, recipientVal: string, subjectVal: string, trackingId: string,
                        createdAt: Time, localTime: string, newId: string, fault: Option<DbError>)
      returns (code: Option<string>)
      requires db.Valid()
      modifies this, db
      ensures db.Valid()
      ensures !isGenerating
      ensures var row := InsertedRow(NewEmail(recipientVal, subjectVal, trackingId, createdAt, localTime), newId);
        var err := InsertError(old(db.rows), row, fault);
        && (err.None? ==>
              && code == Some(Snippet(trackingId)) && generatedCode == code && saveError == None
              && db.rows == old(db.rows) + [row])
        && (err.Some? ==>
              && code == None && generatedCode == old(generatedCode)
              && saveError == Some(ErrorText(err.value)) && db.rows == old(db.rows))
      ensures AllStamped(old(db.rows)) ==> AllStamped(db.rows)
      ensures recipient == old(recipient) && subject == old(subject) && copied == old(copied)
      ensures aiLoading == old(aiLoading) && aiSuggestions == old(aiSuggestions)
    {
      isGenerating := true;
      saveError := None;
      var newEmail := NewEmail(recipientVal, subjectVal, trackingId, createdAt, localTime);
      var result := SaveEmail(db, newEmail, newId, fault);
      if !result.success {
        saveError := Some(if result.error.Some? && result.error.value != "" then result.error.value else SaveFailedText);
        isGenerating := false;
        return None;
      }
      isGenerating := false;
      var htmlCode := Snippet(trackingId);
      generatedCode := Some(htmlCode);
      code := Some(htmlCode);
    }

    /** `handleGenerate`: generate from the form's fields. */
    method HandleGenerate(db: Table, trackingId: string, createdAt: Time, localTime: string,
                          newId: string, fault: Option<DbError>)
      returns (code: Option<string>)
      requires db.Valid()
      modifies this, db
      ensures db.Valid()
      ensures !isGenerating
      ensures var row := InsertedRow(NewEmail(old(recipient), old(subject), trackingId, createdAt, localTime), newId);
        var err := InsertError(old(db.rows), row, fault);
        && (err.None? ==>
              && code == Some(Snippet(trackingId)) && generatedCode == code && saveError == None
              && db.rows == old(db.rows) + [row])
        && (err.Some? ==>
              && code == None && generatedCode == old(generatedCode)
              && saveError == Some(ErrorText(err.value)) && db.rows == old(db.rows))
      ensures AllStamped(old(db.rows)) ==> AllStamped(db.rows)
      ensures recipient == old(recipient) && subject == old(subject) && copied == old(copied)
      ensures aiLoading == old(aiLoading) && aiSuggestions == old(aiSuggestions)
    {
      code := GenerateCode(db, recipient, subject, trackingId, createdAt, localTime, newId, fault);
    }

    /** `handleQuickGenerate`: generate with both fields empty and, when a
        code came back, copy it (the clipboard write is not modelled). */
    method HandleQuickGenerate(db: Table, trackingId: string, createdAt: Time, localTime: string,
                               newId: string, fault: Option<DbError>)
      returns (code: Option<string>)
      requires db.Valid()
      modifies this, db
      ensures db.Valid()
      ensures !isGenerating
      ensures var row := InsertedRow(NewEmail("", "", trackingId, createdAt, localTime), newId);
        var err := InsertError(old(db.rows), row, fault);
        && (err.None? ==>
              && code == Some(Snippet(trackingId)) && generatedCode == code && saveError == None
              && db.rows == old(db.rows) + [row]
              && row.recipient == RecipientPlaceholder && SubjectPlaceholderPrefix <= row.subject)
        && (err.Some? ==>
              && code == None && generatedCode == old(generatedCode)
              && saveError == Some(ErrorText(err.value)) && db.rows == old(db.rows))
      ensures copied == if code.Some? then true else old(copied)
      ensures AllStamped(old(db.rows)) ==> AllStamped(db.rows)
      ensures recipient == old(recipient) && subject == old(subject)
      ensures aiLoading == old(aiLoading) && aiSuggestions == old(aiSuggestions)
    {
      code := GenerateCode(db, "", "", trackingId, createdAt, localTime, newId, fault);
      if code.Some? && code.value != "" {
        copied := true;
      }
    }

    /** `copyToClipboard`: with a code on screen, copy it and show it as
        copied (the clipboard write and the timer that clears `copied` after
        two seconds are not modelled); otherwise nothing happens. */
    method CopyToClipboard()
      modifies this
      ensures copied == ((old(generatedCode).Some? && old(generatedCode).value != "") || old(copied))
      ensures recipient == old(recipient) && subject == old(subject) && generatedCode == old(generatedCode)
      ensures isGenerating == old(isGenerating) && saveError == old(saveError)
      ensures aiLoading == old(aiLoading) && aiSuggestions == old(aiSuggestions)
    {
      if generatedCode.Some? && generatedCode.value != "" {
        copied := true;
      }
    }

    /** `handleAiOptimize`: nothing happens while the subject is empty;
        otherwise the service's answer `suggestions` is shown. */
    method HandleAiOptimize(suggestions: string)
      modifies this
      ensures subject == "" ==> aiSuggestions == old(aiSuggestions) && aiLoading == old(aiLoading)
      ensures subject != "" ==> aiSuggestions == Some(suggestions) && !aiLoading
      ensures recipient == old(recipient) && subject == old(subject) && generatedCode == old(generatedCode)
      ensures copied == old(copied) && isGenerating == old(isGenerating) && saveError == old(saveError)
    {
      if subject == "" {
        return;
      }
      aiLoading := true;
      aiSuggestions := Some(suggestions);
      aiLoading := false;
    }
  }
}

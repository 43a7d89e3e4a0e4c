/** The tip form. A submission needs the privacy consent; it is then always
    stored, and an urgent tip that the sender confirms also opens a mail to
    the newsroom. The `confirm()` answer, the fresh id and the time stamp are
    parameters. */
module ReportPage {
  import opened JsLib
  import opened Types
  import opened Store

  datatype ReportForm = ReportForm(
    name: string,
    email: string,
    phone: string,
    title: string,
    content: string,
    agree: bool,
    isUrgent: bool)

  const BlankReportForm: ReportForm := ReportForm("", "", "", "", "", false, false)

  /** `{ id, ...formData, fileName: file?.name, submittedAt }`. */
  function ReportOf(freshId: string, f: ReportForm, fileName: Option<string>, submittedAt: string): (r: Report)
    ensures r.id == freshId && r.fileName == fileName && r.submittedAt == submittedAt
    ensures r.name == f.name && r.email == f.email && r.phone == f.phone
    ensures r.title == f.title && r.content == f.content
    ensures r.agree == f.agree && r.isUrgent == f.isUrgent
  {
    Report(freshId, f.name, f.email, f.phone, f.title, f.content, f.agree, f.isUrgent, fileName, submittedAt)
  }

  // ---------------------------------------------------------------------------
  // The urgent-tip mail

  const NewsroomAddress: string := "ai@aag.co.kr"
  const SubjectPrefix: string := "[이노뉴스 긴급 제보] "
  const NameLabel: string := "제보자명: "
  const PhoneLabel: string := "연락처: "
  const EmailLabel: string := "이메일: "
  const ContentHeading: string := "[내용]\n"

  /** The mail, before percent-encoding into the `mailto:` link. */
  datatype MailDraft = MailDraft(to: string, subject: string, body: string)

  function MailSubject(title: string): (subject: string)
    ensures |subject| == |SubjectPrefix| + |title|
  {
    SubjectPrefix + title
  }

  /** The sender's name, phone and e-mail on a line each, a blank line, then
      the tip under its heading. */
  function MailBody(f: ReportForm): (body: string)
    ensures |body| == |NameLabel| + |f.name| + |PhoneLabel| + |f.phone| + |EmailLabel| + |f.email|
      + |ContentHeading| + |f.content| + 4
  {
    NameLabel + f.name + "\n" + PhoneLabel + f.phone + "\n" + EmailLabel + f.email + "\n\n"
      + ContentHeading + f.content
  }

  /** The subject names the tip: the title follows the fixed prefix. */
  lemma MailSubjectCarriesTitle(title: string)
    ensures MailSubject(title)[..|SubjectPrefix|] == SubjectPrefix
    ensures MailSubject(title)[|SubjectPrefix|..] == title
  {
  }

  /** The middle piece of a three-part concatenation sits right after the first. */
  lemma MiddleAt(pre: string, mid: string, post: string)
    ensures (pre + mid + post)[|pre|..|pre| + |mid|] == mid
  {
    assert (pre + mid + post)[|pre|..|pre| + |mid|] == (pre + mid)[|pre|..];
  }

  /** The body in four pieces: the name, phone and e-mail lines, then the tip. */
  lemma MailBodyPieces(f: ReportForm)
    ensures MailBody(f) == (NameLabel + f.name) + "\n" + (PhoneLabel + f.phone) + "\n"
      + (EmailLabel + f.email) + "\n\n" + (ContentHeading + f.content)
  {
  }

  lemma MailBodyPhoneLine(f: ReportForm)
    ensures var at := |NameLabel| + |f.name| + 1;
      MailBody(f)[at..at + |PhoneLabel| + |f.phone|] == PhoneLabel + f.phone
  {
    var name := NameLabel + f.name;
    var phone := PhoneLabel + f.phone;
    var rest := "\n" + (EmailLabel + f.email) + "\n\n" + (ContentHeading + f.content);
    MailBodyPieces(f);
    assert MailBody(f) == (name + "\n") + phone + rest;
    MiddleAt(name + "\n", phone, rest);
  }

  lemma MailBodyEmailLine(f: ReportForm)
    ensures var at := |NameLabel| + |f.name| + |PhoneLabel| + |f.phone| + 2;
      MailBody(f)[at..at + |EmailLabel| + |f.email|] == EmailLabel + f.email
  {
    var head := (NameLabel + f.name) + "\n" + (PhoneLabel + f.phone) + "\n";
    var email := EmailLabel + f.email;
    var rest := "\n\n" + (ContentHeading + f.content);
    MailBodyPieces(f);
    assert MailBody(f) == head + email + rest;
    MiddleAt(head, email, rest);
  }

  lemma MailBodyNameLine(f: ReportForm)
    ensures MailBody(f)[..|NameLabel| + |f.name|] == NameLabel + f.name
  {
    var name := NameLabel + f.name;
    var rest := "\n" + (PhoneLabel + f.phone) + "\n" + (EmailLabel + f.email) + "\n\n" + (ContentHeading + f.content);
    MailBodyPieces(f);
    assert MailBody(f) == name + rest;
    assert (name + rest)[..|name|] == name;
  }

  lemma MailBodyTipLine(f: ReportForm)
    ensures MailBody(f)[|MailBody(f)| - |ContentHeading| - |f.content|..] == ContentHeading + f.content
  {
    var head := (NameLabel + f.name) + "\n" + (PhoneLabel + f.phone) + "\n" + (EmailLabel + f.email) + "\n\n";
    var tip := ContentHeading + f.content;
    MailBodyPieces(f);
    assert MailBody(f) == head + tip + "";
    MiddleAt(head, tip, "");
  }

  /** The body holds, in order, the name line, the phone line, the e-mail line
      and, at its end, the tip under its heading. */
  lemma MailBodyCarriesTip(f: ReportForm)
    ensures MailBody(f)[..|NameLabel| + |f.name|] == NameLabel + f.name
    ensures var at := |NameLabel| + |f.name| + 1;
      MailBody(f)[at..at + |PhoneLabel| + |f.phone|] == PhoneLabel + f.phone
    ensures var at := |NameLabel| + |f.name| + |PhoneLabel| + |f.phone| + 2;
      MailBody(f)[at..at + |EmailLabel| + |f.email|] == EmailLabel + f.email
    ensures MailBody(f)[|MailBody(f)| - |ContentHeading| - |f.content|..] == ContentHeading + f.content
  {
    MailBodyNameLine(f);
    MailBodyTipLine(f);
    MailBodyPhoneLine(f);
    MailBodyEmailLine(f);
  }

  datatype SubmitOutcome =
    | NoConsent
    | Submitted(mail: Option<MailDraft>)

  /** What a submission of `f` does, apart from storing the report. */
  function SubmitResult(f: ReportForm, confirmUrgent: bool): (r: SubmitOutcome)
    ensures r.NoConsent? <==> !f.agree
    ensures r.Submitted? ==> (r.mail.Some? <==> f.isUrgent && confirmUrgent)
    ensures r.Submitted? && r.mail.Some? ==>
      r.mail.value.to == NewsroomAddress
      && r.mail.value.subject == MailSubject(f.title)
      && r.mail.value.body == MailBody(f)
  {
    if !f.agree then NoConsent
    else if f.isUrgent && confirmUrgent then Submitted(Some(MailDraft(NewsroomAddress, MailSubject(f.title), MailBody(f))))
    else Submitted(None)
  }

  /** Declining the urgent dialog does not cancel the tip: it is submitted,
      only without the mail. */
  lemma DecliningStillSubmits(f: ReportForm)
    requires f.agree
    ensures SubmitResult(f, false) == Submitted(None)
    ensures SubmitResult(f, true).Submitted?
  {
  }

  // ---------------------------------------------------------------------------
  // The page state

  datatype View = View(form: ReportForm, fileName: Option<string>, isSubmitting: bool)

  class ReportPageState {
    const store: AppStore
    var form: ReportForm
    var fileName: Option<string>
    var isSubmitting: bool

    function State(): View
      reads this
    {
      View(form, fileName, isSubmitting)
    }

    constructor (store: AppStore)
      ensures this.store == store
      ensures State() == View(BlankReportForm, None, false)
    {
      this.store := store;
      form := BlankReportForm;
      fileName := None;
      isSubmitting := false;
    }

    /** `handleChange`: a text box or a checkbox sets its own field. */
    method EditForm(f: ReportForm)
      modifies this
      ensures State() == old(State()).(form := f)
    {
      form := f;
    }

    /** `handleFileChange`: picking a file records its name; an empty pick
        keeps the previous one. */
    method HandleFileChange(picked: Option<string>)
      modifies this
      ensures picked.Some? ==> State() == old(State()).(fileName := picked)
      ensures picked.None? ==> State() == old(State())
    {
      if picked.Some? {
        fileName := picked;
      }
    }

    /** `handleSubmit`. Without consent nothing changes. With consent exactly
        one report is prepended, the mail is opened only for a confirmed
        urgent tip, and the form, the file and the flag are reset. */
    method HandleSubmit(confirmUrgent: bool, freshId: string, submittedAt: string) returns (outcome: SubmitOutcome)
      modifies this, store
      ensures outcome == SubmitResult(old(form), confirmUrgent)
      ensures !old(form).agree ==> store.State() == old(store.State()) && State() == old(State())
      ensures old(form).agree ==>
        && store.State() == old(store.State()).(reports := [ReportOf(freshId, old(form), old(fileName), submittedAt)] + old(store.reports))
        && State() == View(BlankReportForm, None, false)
    {
      if !form.agree {
        return NoConsent;
      }
      var shouldMail := false;
      if form.isUrgent {
        if confirmUrgent {
          shouldMail := true;
        }
      }
      isSubmitting := true;
      store.AddReport(ReportOf(freshId, form, fileName, submittedAt));
      if shouldMail {
        outcome := Submitted(Some(MailDraft(NewsroomAddress, MailSubject(form.title), MailBody(form))));
      } else {
        outcome := Submitted(None);
      }
      form := BlankReportForm;
      fileName := None;
      isSubmitting := false;
    }
  }
}

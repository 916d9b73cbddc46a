/** `com.model.JobMessage`: the job description decoded from an inbound
    message. A mutable bean with three `String` fields (job id, storage key
    of the submitted file, language), each of which may be `null`. */
module JobModel {
  import opened JavaLang
  import opened JavaString

  class JobMessage {
    var jobId: Nullable
    var s3Key: Nullable
    var language: Nullable

    /** `new JobMessage()`: every field is `null`. The JSON decoder builds a
        job this way and then calls the setters. */
    constructor Empty()
      ensures GetJobId() == None && GetS3Key() == None && GetLanguage() == None
    {
      jobId, s3Key, language := None, None, None;
    }

    /** `new JobMessage(jobId, s3Key, language)`. */
    constructor (jobId: Nullable, s3Key: Nullable, language: Nullable)
      ensures GetJobId() == jobId && GetS3Key() == s3Key && GetLanguage() == language
    {
      this.jobId, this.s3Key, this.language := jobId, s3Key, language;
    }

    function GetJobId(): Nullable
      reads this
    {
      jobId
    }

    function GetS3Key(): Nullable
      reads this
    {
      s3Key
    }

    function GetLanguage(): Nullable
      reads this
    {
      language
    }

    method SetJobId(jobId: Nullable)
      modifies this
      ensures GetJobId() == jobId
      ensures GetS3Key() == old(GetS3Key()) && GetLanguage() == old(GetLanguage())
    {
      this.jobId := jobId;
    }

    method SetS3Key(s3Key: Nullable)
      modifies this
      ensures GetS3Key() == s3Key
      ensures GetJobId() == old(GetJobId()) && GetLanguage() == old(GetLanguage())
    {
      this.s3Key := s3Key;
    }

    method SetLanguage(language: Nullable)
      modifies this
      ensures GetLanguage() == language
      ensures GetJobId() == old(GetJobId()) && GetS3Key() == old(GetS3Key())
    {
      this.language := language;
    }

    /** `toString()`: the three fields, each between single quotes, `null`
        ones printed as "null". */
    function ToString(): string
      reads this
    {
      "JobMessage{jobId='" + Show(jobId) + "', s3Key='" + Show(s3Key) + "', language='" + Show(language) + "'}"
    }
  }

  const DescriptionHead: string := "JobMessage{jobId='"
  const KeyField: string := "', s3Key='"
  const LanguageField: string := "', language='"
  const DescriptionTail: string := "'}"

  /** After `head`, the text up to the next single quote, and the rest from
      that quote on. */
  function QuotedField(s: string, head: string): Option<(string, string)>
  {
    if StartsWith(s, head) then SplitAt(s[|head|..], '\'') else None
  }

  /** Reads the three field texts back out of a `toString()` text. */
  function ReadDescription(s: string): Option<(string, string, string)>
  {
    match QuotedField(s, DescriptionHead)
    case None => None
    case Some((id, r1)) =>
      match QuotedField(r1, KeyField)
      case None => None
      case Some((key, r2)) =>
        match QuotedField(r2, LanguageField)
        case None => None
        case Some((lang, r3)) => if r3 == DescriptionTail then Some((id, key, lang)) else None
  }

  lemma {:induction false} QuotedFieldConcat(head: string, v: string, rest: string)
    requires '\'' !in v && rest != [] && rest[0] == '\''
    ensures QuotedField(head + v + rest, head) == Some((v, rest))
  {
    var s := head + v + rest;
    assert s[..|head|] == head;
    assert s[|head|..] == v + rest;
    SplitAtConcat(v, rest, '\'');
  }

  /** When no field text holds a single quote, `toString()` determines the
      three field texts: reading it back gives them. */
  lemma {:induction false} ToStringRoundTrip(job: JobMessage)
    requires '\'' !in Show(job.jobId) && '\'' !in Show(job.s3Key) && '\'' !in Show(job.language)
    ensures ReadDescription(job.ToString()) == Some((Show(job.jobId), Show(job.s3Key), Show(job.language)))
  {
    var j, k, l := Show(job.jobId), Show(job.s3Key), Show(job.language);
    var r2 := LanguageField + l + DescriptionTail;
    var r1 := KeyField + k + r2;
    assert job.ToString() == DescriptionHead + j + r1;
    QuotedFieldConcat(DescriptionHead, j, r1);
    QuotedFieldConcat(KeyField, k, r2);
    QuotedFieldConcat(LanguageField, l, DescriptionTail);
  }
}

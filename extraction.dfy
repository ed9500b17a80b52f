/** The entry points of src/processors/extract.ts: `extract`, which runs
    the four detectors in turn, and the four `*Only` components, which run
    one. Each detector call is wrapped in try/catch: a detector that raises
    keeps what it pushed before raising, and the next detector still runs.
    The `Faults` argument says which push of which detector raises. */
module Extraction {
  import opened Strings
  import opened Results
  import opened EmailDetector
  import opened PhoneDetector
  import opened UrlDetector
  import opened NumberDetector

  /** The entity list after an email detector call on `ents`. */
  function AfterEmails(text: string, ents: seq<Entity>, fault: Fault): seq<Entity> {
    ents + Truncate(EmailsFound(text), fault)
  }

  /** The entity list after a phone detector call on `ents`; the phones
      found depend on the phones already in `ents`. */
  function AfterPhones(text: string, ents: seq<Entity>, fault: Fault): seq<Entity> {
    ents + Truncate(PhonesFound(text, ents), fault)
  }

  /** The entity list after a URL detector call on `ents`. */
  function AfterUrls(text: string, ents: seq<Entity>, fault: Fault): seq<Entity> {
    ents + Truncate(UrlsFound(text), fault)
  }

  /** The entity list after a number detector call on `ents`. */
  function AfterNumbers(text: string, ents: seq<Entity>, isNumber: string -> bool, fault: Fault): seq<Entity> {
    ents + Truncate(NumbersFound(text, isNumber), fault)
  }

  /** The entity list after `extract` on `ents`: emails, then phones, then
      URLs, then numbers. */
  function Extracted(text: string, ents: seq<Entity>, isNumber: string -> bool, faults: Faults): seq<Entity> {
    var afterEmails := AfterEmails(text, ents, faults.email);
    var afterPhones := AfterPhones(text, afterEmails, faults.phone);
    var afterUrls := AfterUrls(text, afterPhones, faults.url);
    AfterNumbers(text, afterUrls, isNumber, faults.number)
  }

  /** Appending the four detectors' output, each of a single kind, to
      `ents` keeps `ents` as it was and adds slices grouped by detector in
      the order the detectors run. */
  lemma DetectorOutputsInOrder(text: string, ents: seq<Entity>, emails: seq<Entity>, phones: seq<Entity>,
                               urls: seq<Entity>, numbers: seq<Entity>)
    requires AllOfKind(text, emails, Email) && AllOfKind(text, phones, Phone)
    requires AllOfKind(text, urls, Url) && AllOfKind(text, numbers, Number)
    ensures var out := ents + emails + phones + urls + numbers;
      |ents| <= |out| && out[..|ents|] == ents &&
      KindsInOrder(out[|ents|..]) && AllSlices(text, out[|ents|..])
  {
    OneKindInOrder(text, emails, Email);
    OneKindInOrder(text, phones, Phone);
    OneKindInOrder(text, urls, Url);
    OneKindInOrder(text, numbers, Number);
    AppendInOrder(text, emails, phones, 0, 0, 1);
    AppendInOrder(text, emails + phones, urls, 0, 1, 2);
    AppendInOrder(text, emails + phones + urls, numbers, 0, 2, 3);
    var out := ents + emails + phones + urls + numbers;
    assert out == ents + (emails + phones + urls + numbers);
    assert out[|ents|..] == emails + phones + urls + numbers;
  }

  /** `extract` only appends: the entities already present stay, and what
      is added are slices of the text, the emails first, then the phones,
      the URLs and the numbers, whichever detectors raise. */
  lemma ExtractedInOrder(text: string, ents: seq<Entity>, isNumber: string -> bool, faults: Faults)
    ensures var out := Extracted(text, ents, isNumber, faults);
      |ents| <= |out| && out[..|ents|] == ents &&
      KindsInOrder(out[|ents|..]) && AllSlices(text, out[|ents|..])
  {
    var emails := Truncate(EmailsFound(text), faults.email);
    var phones := Truncate(PhonesFound(text, ents + emails), faults.phone);
    var urls := Truncate(UrlsFound(text), faults.url);
    var numbers := Truncate(NumbersFound(text, isNumber), faults.number);
    EmailsFoundSlices(text);
    TruncateOfKind(text, EmailsFound(text), faults.email, Email);
    PhonesFoundSlices(text, ents + emails);
    TruncateOfKind(text, PhonesFound(text, ents + emails), faults.phone, Phone);
    UrlsFoundSlices(text);
    TruncateOfKind(text, UrlsFound(text), faults.url, Url);
    NumbersFoundSlices(text, isNumber);
    TruncateOfKind(text, NumbersFound(text, isNumber), faults.number, Number);
    DetectorOutputsInOrder(text, ents, emails, phones, urls, numbers);
  }

  /** `extract` (lines 4-32): the four detectors in turn, each failure
      caught; returns the object it was given. */
  method Extract(input: IntentResult, isNumber: string -> bool, faults: Faults) returns (output: IntentResult)
    modifies input
    ensures output == input
    ensures input.entities == Extracted(input.text, old(input.entities), isNumber, faults)
    ensures input.tokens[..] == old(input.tokens[..])
  {
    hide *;
    ghost var ents := input.entities;
    var emailOutcome := ExtractEmails(input, faults.email);
    ghost var afterEmails := input.entities;
    var phoneOutcome := ExtractPhones(input, faults.phone);
    ghost var afterPhones := input.entities;
    var urlOutcome := ExtractUrls(input, faults.url);
    ghost var afterUrls := input.entities;
    var numberOutcome := ExtractNumbers(input, isNumber, faults.number);
    ExtractedIs(input.text, ents, isNumber, faults, afterEmails, afterPhones, afterUrls, input.entities);
    return input;
  }

  /** `Extracted` step by step, as the detector calls produce it. */
  lemma ExtractedIs(text: string, ents: seq<Entity>, isNumber: string -> bool, faults: Faults,
                    afterEmails: seq<Entity>, afterPhones: seq<Entity>, afterUrls: seq<Entity>, out: seq<Entity>)
    requires afterEmails == ents + Truncate(EmailsFound(text), faults.email)
    requires afterPhones == afterEmails + Truncate(PhonesFound(text, afterEmails), faults.phone)
    requires afterUrls == afterPhones + Truncate(UrlsFound(text), faults.url)
    requires out == afterUrls + Truncate(NumbersFound(text, isNumber), faults.number)
    ensures out == Extracted(text, ents, isNumber, faults)
  {
  }

  /** `extractEmailsOnly` (lines 34-43). */
  method ExtractEmailsOnly(input: IntentResult, fault: Fault) returns (output: IntentResult)
    modifies input
    ensures output == input
    ensures input.entities == AfterEmails(input.text, old(input.entities), fault)
    ensures input.tokens[..] == old(input.tokens[..])
  {
    var outcome := ExtractEmails(input, fault);
    return input;
  }

  /** `extractPhonesOnly` (lines 45-54). */
  method ExtractPhonesOnly(input: IntentResult, fault: Fault) returns (output: IntentResult)
    modifies input
    ensures output == input
    ensures input.entities == AfterPhones(input.text, old(input.entities), fault)
    ensures input.tokens[..] == old(input.tokens[..])
  {
    var outcome := ExtractPhones(input, fault);
    return input;
  }

  /** `extractUrlsOnly` (lines 56-65). */
  method ExtractUrlsOnly(input: IntentResult, fault: Fault) returns (output: IntentResult)
    modifies input
    ensures output == input
    ensures input.entities == AfterUrls(input.text, old(input.entities), fault)
    ensures input.tokens[..] == old(input.tokens[..])
  {
    var outcome := ExtractUrls(input, fault);
    return input;
  }

  /** `extractNumbersOnly` (lines 67-76). */
  method ExtractNumbersOnly(input: IntentResult, isNumber: string -> bool, fault: Fault) returns (output: IntentResult)
    modifies input
    ensures output == input
    ensures input.entities == AfterNumbers(input.text, old(input.entities), isNumber, fault)
    ensures input.tokens[..] == old(input.tokens[..])
  {
    var outcome := ExtractNumbers(input, isNumber, fault);
    return input;
  }
}

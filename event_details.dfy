/**
  The event details of the script: the dictionary display it passes through
  `sanitize_dict` before handing the record to the crew. Every string in the
  record is ASCII, so sanitising leaves the record exactly as it was.

  Each string literal is written as a concatenation of short pieces, with a
  lemma that checks the pieces one at a time; the description is the
  concatenation of its three source lines, as in the script.
*/
module EventDetails {
  import opened AsciiCleaner
  import opened RecordSanitizer

  lemma AllAsciiAppend(a: string, b: string)
    requires AllAscii(a) && AllAscii(b)
    ensures AllAscii(a + b)
  {
  }

  /** The string values of the record (tech_event_origanising.py:114-140). */
  const Topic: string := "AI Innovation " + "Conference 2025"
  const Description1: string :=
    "An exclusive " + "gathering of AI " + "innovators, " + "entrepreneurs, "
    + "researchers, " + "and industry " + "leaders to " + "explore "
  const Description2: string :=
    "groundbreaking " + "advancements in " + "Artificial " + "Intelligence, " + "Machine "
    + "Learning, and " + "responsible AI " + "practices. "
  const Description3: string :=
    "The conference " + "will include " + "keynote talks, " + "panel " + "discussions, "
    + "networking " + "sessions, and " + "live " + "demonstrations."
  const City: string := "Mumbai"
  const Date: string := "2025-07-15"
  const Venue: string := "Modern " + "Conference Hall " + "with AV and " + "Wi-Fi"
  const Duration: string := "1 day"
  const Requirement1: string := "High-speed " + "internet/Wi-Fi"
  const Requirement2: string :=
    "Audio/Visual " + "equipment " + "(projectors, " + "microphones)"
  const Requirement3: string := "On-site " + "catering for " + "200 attendees"
  const Requirement4: string := "Green room for " + "speakers"
  const Requirement5: string := "Accessibility " + "features " + "(ramps, " + "elevators)"
  const Requirement6: string := "Backup power " + "supply"
  const Audience1: string := "AI researchers " + "and engineers"
  const Audience2: string := "Tech executives " + "and founders"
  const Audience3: string := "VCs and " + "investors"
  const Audience4: string := "Product " + "managers and " + "analysts"
  const Audience5: string := "University " + "students and " + "professors"

  const Description: string := Description1 + Description2 + Description3

  const KeyRequirements: seq<Value> :=
    [Str(Requirement1), Str(Requirement2), Str(Requirement3),
     Str(Requirement4), Str(Requirement5), Str(Requirement6)]

  const TargetAudience: seq<Value> :=
    [Str(Audience1), Str(Audience2), Str(Audience3), Str(Audience4), Str(Audience5)]

  /** The keys of the display, in the order they are written. */
  const EventKeys: seq<string> :=
    ["event_topic", "event_description", "event_city", "tentative_date",
     "expected_participants", "budget", "venue_type", "duration",
     "key_requirements", "target_audience"]

  const EventRecord: map<string, Value> := map[
    "event_topic" := Str(Topic),
    "event_description" := Str(Description),
    "event_city" := Str(City),
    "tentative_date" := Str(Date),
    "expected_participants" := Int(200),
    "budget" := Int(200000),
    "venue_type" := Str(Venue),
    "duration" := Str(Duration),
    "key_requirements" := List(KeyRequirements),
    "target_audience" := List(TargetAudience)]

  /* Each string value is ASCII: the lemmas below check a literal piece by
     piece, joining the pieces with `AllAsciiAppend`. */

  lemma TopicAscii()
    ensures AllAscii(Topic)
  {
    var t := "AI Innovation ";
    assert AllAscii(t);
    AllAsciiAppend(t, "Conference 2025");
    t := t + "Conference 2025";
  }

  lemma Description1Ascii()
    ensures AllAscii(Description1)
  {
    var t := "An exclusive ";
    assert AllAscii(t);
    AllAsciiAppend(t, "gathering of AI ");
    t := t + "gathering of AI ";
    AllAsciiAppend(t, "innovators, ");
    t := t + "innovators, ";
    AllAsciiAppend(t, "entrepreneurs, ");
    t := t + "entrepreneurs, ";
    AllAsciiAppend(t, "researchers, ");
    t := t + "researchers, ";
    AllAsciiAppend(t, "and industry ");
    t := t + "and industry ";
    AllAsciiAppend(t, "leaders to ");
    t := t + "leaders to ";
    AllAsciiAppend(t, "explore ");
    t := t + "explore ";
  }

  lemma Description2Ascii()
    ensures AllAscii(Description2)
  {
    var t := "groundbreaking ";
    assert AllAscii(t);
    AllAsciiAppend(t, "advancements in ");
    t := t + "advancements in ";
    AllAsciiAppend(t, "Artificial ");
    t := t + "Artificial ";
    AllAsciiAppend(t, "Intelligence, ");
    t := t + "Intelligence, ";
    AllAsciiAppend(t, "Machine ");
    t := t + "Machine ";
    AllAsciiAppend(t, "Learning, and ");
    t := t + "Learning, and ";
    AllAsciiAppend(t, "responsible AI ");
    t := t + "responsible AI ";
    AllAsciiAppend(t, "practices. ");
    t := t + "practices. ";
  }

  lemma Description3Ascii()
    ensures AllAscii(Description3)
  {
    var t := "The conference ";
    assert AllAscii(t);
    AllAsciiAppend(t, "will include ");
    t := t + "will include ";
    AllAsciiAppend(t, "keynote talks, ");
    t := t + "keynote talks, ";
    AllAsciiAppend(t, "panel ");
    t := t + "panel ";
    AllAsciiAppend(t, "discussions, ");
    t := t + "discussions, ";
    AllAsciiAppend(t, "networking ");
    t := t + "networking ";
    AllAsciiAppend(t, "sessions, and ");
    t := t + "sessions, and ";
    AllAsciiAppend(t, "live ");
    t := t + "live ";
    AllAsciiAppend(t, "demonstrations.");
    t := t + "demonstrations.";
  }

  lemma VenueAscii()
    ensures AllAscii(Venue)
  {
    var t := "Modern ";
    assert AllAscii(t);
    AllAsciiAppend(t, "Conference Hall ");
    t := t + "Conference Hall ";
    AllAsciiAppend(t, "with AV and ");
    t := t + "with AV and ";
    AllAsciiAppend(t, "Wi-Fi");
    t := t + "Wi-Fi";
  }

  lemma Requirement1Ascii()
    ensures AllAscii(Requirement1)
  {
    var t := "High-speed ";
    assert AllAscii(t);
    AllAsciiAppend(t, "internet/Wi-Fi");
    t := t + "internet/Wi-Fi";
  }

  lemma Requirement2Ascii()
    ensures AllAscii(Requirement2)
  {
    var t := "Audio/Visual ";
    assert AllAscii(t);
    AllAsciiAppend(t, "equipment ");
    t := t + "equipment ";
    AllAsciiAppend(t, "(projectors, ");
    t := t + "(projectors, ";
    AllAsciiAppend(t, "microphones)");
    t := t + "microphones)";
  }

  lemma Requirement3Ascii()
    ensures AllAscii(Requirement3)
  {
    var t := "On-site ";
    assert AllAscii(t);
    AllAsciiAppend(t, "catering for ");
    t := t + "catering for ";
    AllAsciiAppend(t, "200 attendees");
    t := t + "200 attendees";
  }

  lemma Requirement4Ascii()
    ensures AllAscii(Requirement4)
  {
    var t := "Green room for ";
    assert AllAscii(t);
    AllAsciiAppend(t, "speakers");
    t := t + "speakers";
  }

  lemma Requirement5Ascii()
    ensures AllAscii(Requirement5)
  {
    var t := "Accessibility ";
    assert AllAscii(t);
    AllAsciiAppend(t, "features ");
    t := t + "features ";
    AllAsciiAppend(t, "(ramps, ");
    t := t + "(ramps, ";
    AllAsciiAppend(t, "elevators)");
    t := t + "elevators)";
  }

  lemma Requirement6Ascii()
    ensures AllAscii(Requirement6)
  {
    var t := "Backup power ";
    assert AllAscii(t);
    AllAsciiAppend(t, "supply");
    t := t + "supply";
  }

  lemma Audience1Ascii()
    ensures AllAscii(Audience1)
  {
    var t := "AI researchers ";
    assert AllAscii(t);
    AllAsciiAppend(t, "and engineers");
    t := t + "and engineers";
  }

  lemma Audience2Ascii()
    ensures AllAscii(Audience2)
  {
    var t := "Tech executives ";
    assert AllAscii(t);
    AllAsciiAppend(t, "and founders");
    t := t + "and founders";
  }

  lemma Audience3Ascii()
    ensures AllAscii(Audience3)
  {
    var t := "VCs and ";
    assert AllAscii(t);
    AllAsciiAppend(t, "investors");
    t := t + "investors";
  }

  lemma Audience4Ascii()
    ensures AllAscii(Audience4)
  {
    var t := "Product ";
    assert AllAscii(t);
    AllAsciiAppend(t, "managers and ");
    t := t + "managers and ";
    AllAsciiAppend(t, "analysts");
    t := t + "analysts";
  }

  lemma Audience5Ascii()
    ensures AllAscii(Audience5)
  {
    var t := "University ";
    assert AllAscii(t);
    AllAsciiAppend(t, "students and ");
    t := t + "students and ";
    AllAsciiAppend(t, "professors");
    t := t + "professors";
  }

  lemma DescriptionAscii()
    ensures AllAscii(Description)
  {
    Description1Ascii();
    Description2Ascii();
    Description3Ascii();
    AllAsciiAppend(Description1, Description2);
    AllAsciiAppend(Description1 + Description2, Description3);
  }

  lemma KeyRequirementsSanitized()
    ensures Sanitized(List(KeyRequirements))
  {
    Requirement1Ascii();
    Requirement2Ascii();
    Requirement3Ascii();
    Requirement4Ascii();
    Requirement5Ascii();
    Requirement6Ascii();
  }

  lemma TargetAudienceSanitized()
    ensures Sanitized(List(TargetAudience))
  {
    Audience1Ascii();
    Audience2Ascii();
    Audience3Ascii();
    Audience4Ascii();
    Audience5Ascii();
  }

  /** Every value of the event record is already sanitised. */
  lemma EventRecordSanitized()
    ensures forall k :: k in EventRecord ==> Sanitized(EventRecord[k])
  {
    TopicAscii();
    DescriptionAscii();
    VenueAscii();
    assert AllAscii(City) && AllAscii(Date) && AllAscii(Duration);
    KeyRequirementsSanitized();
    TargetAudienceSanitized();
  }

  /** Sanitising the event record gives back the same record. */
  lemma EventRecordUnchanged()
    ensures SanitizeEntries(EventRecord) == EventRecord
  {
    EventRecordSanitized();
    SanitizeEntriesOfSanitized(EventRecord);
  }

  /** `sanitize_dict(event_details)`: on the dictionary that holds the event
      details, the walk overwrites every entry in place with a value equal to
      the one it held, so the keys, their order and the values are as before. */
  method SanitizeEventDetails(d: Dict) returns (r: Dict)
    requires d.Valid() && d.keys == EventKeys && d.entries == EventRecord
    modifies d
    ensures r == d && d.Valid()
    ensures d.keys == EventKeys && d.entries == EventRecord
  {
    r := SanitizeDict(d);
    EventRecordUnchanged();
  }
}

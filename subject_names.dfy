/** The three built-in subject-name strategies. Each maps a topic, an optional
    role ("key"/"value", matched without regard to case) and an optional record
    type to a subject name; null arguments are represented by the empty string,
    which every strategy treats exactly as it treats null. */
module SubjectNames {
  import opened Text

  /** `<topic>-key`, `<topic>-value`, or the topic itself for any other role. */
  function TopicNameStrategy(topic: string, roleType: string, recordType: string): (subject: string)
    ensures subject == topic + "-key" <==> LowerInvariant(roleType) == "key"
    ensures subject == topic + "-value" <==> LowerInvariant(roleType) == "value"
    ensures subject == topic <==> LowerInvariant(roleType) != "key" && LowerInvariant(roleType) != "value"
  {
    var lowerType := LowerInvariant(roleType);
    if lowerType == "key" then topic + "-key"
    else if lowerType == "value" then topic + "-value"
    else topic
  }

  /** `<topic>-<recordType>` when a record type is given, else what the topic
      strategy gives. */
  function TopicRecordNameStrategy(topic: string, roleType: string, recordType: string): (subject: string)
    ensures !IsBlank(recordType) ==> subject == topic + "-" + recordType
    ensures IsBlank(recordType) ==> subject == TopicNameStrategy(topic, roleType, recordType)
  {
    if !IsBlank(recordType) then topic + "-" + recordType
    else
      var lowerType := LowerInvariant(roleType);
      if lowerType == "key" then topic + "-key"
      else if lowerType == "value" then topic + "-value"
      else topic
  }

  /** The record type when one is given, else the topic. */
  function RecordNameStrategy(topic: string, roleType: string, recordType: string): (subject: string)
    ensures !IsBlank(recordType) ==> subject == recordType
    ensures IsBlank(recordType) ==> subject == topic
  {
    if !IsBlank(recordType) then recordType else topic
  }

  /** The topic strategy does not look at the record type. */
  lemma TopicNameIgnoresRecordType(topic: string, roleType: string, r1: string, r2: string)
    ensures TopicNameStrategy(topic, roleType, r1) == TopicNameStrategy(topic, roleType, r2)
  {
  }

  /** A subject built from a non-blank topic is never blank, whichever
      built-in strategy builds it. */
  lemma {:induction false} StrategiesKeepSubjectNonBlank(topic: string, roleType: string, recordType: string)
    requires !IsBlank(topic)
    ensures !IsBlank(TopicNameStrategy(topic, roleType, recordType))
    ensures !IsBlank(TopicRecordNameStrategy(topic, roleType, recordType))
    ensures !IsBlank(RecordNameStrategy(topic, roleType, recordType))
  {
    var j :| 0 <= j < |topic| && !IsWhiteSpace(topic[j]);
    var byTopic := TopicNameStrategy(topic, roleType, recordType);
    var byTopicRecord := TopicRecordNameStrategy(topic, roleType, recordType);
    assert byTopic[j] == topic[j];
    assert byTopicRecord[j] == topic[j];
  }
}

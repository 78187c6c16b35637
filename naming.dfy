/** Strategies for choosing the registry schema name of a Kafka key or
    value. Each is a function of the topic, whether the value is a key, and
    its schema; one that reads `schema.fqn` fails (`None` here) on a schema
    without that attribute. */
module Naming {
  import opened Wrappers
  import opened SchemaModel

  /** The default: `<topic>-key` for keys, `<topic>-value` for values. */
  function TopicNameStrategy(topic: string, isKey: bool, schema: Schema): (name: string)
    ensures |name| > |topic| && name[..|topic|] == topic && name[|topic|] == '-'
    ensures name[|topic| + 1..] == "key" <==> isKey
    ensures name[|topic| + 1..] == "value" <==> !isKey
  {
    topic + "-" + (if isKey then "key" else "value")
  }

  /** The fully-qualified record name, whatever the topic. */
  function RecordNameStrategy(topic: string, isKey: bool, schema: Schema): Option<string> {
    schema.fqn
  }

  /** `<topic>-<fqn>`, whether key or value; fails without an `fqn`. */
  function TopicRecordNameStrategy(topic: string, isKey: bool, schema: Schema): (name: Option<string>)
    ensures name.Some? <==> schema.fqn.Some?
    ensures name.Some? ==>
      && |name.value| > |topic| && name.value[..|topic|] == topic && name.value[|topic|] == '-'
      && name.value[|topic| + 1..] == schema.fqn.value
  {
    match schema.fqn
    case None => None
    case Some(fqn) => Some(topic + "-" + fqn)
  }

  /** Topic naming ignores the schema, tells a topic's keys from its values,
      and gives different topics different names. */
  lemma TopicNameStrategyProperties(topic: string, other: string, isKey: bool, s1: Schema, s2: Schema)
    ensures TopicNameStrategy(topic, isKey, s1) == TopicNameStrategy(topic, isKey, s2)
    ensures TopicNameStrategy(topic, true, s1) != TopicNameStrategy(topic, false, s1)
    ensures topic != other ==> TopicNameStrategy(topic, isKey, s1) != TopicNameStrategy(other, isKey, s1)
  {
  }

  /** Record naming is the schema's fqn, for any topic and either role. */
  lemma RecordNameStrategyIgnoresTopic(t1: string, t2: string, k1: bool, k2: bool, schema: Schema)
    ensures RecordNameStrategy(t1, k1, schema) == RecordNameStrategy(t2, k2, schema) == schema.fqn
  {
  }

  /** Topic-record naming ignores the role, and one record name used on two
      topics gives two schema names, as its documentation promises. */
  lemma TopicRecordNameStrategyProperties(t1: string, t2: string, k1: bool, k2: bool, schema: Schema)
    requires schema.fqn.Some?
    ensures TopicRecordNameStrategy(t1, k1, schema) == TopicRecordNameStrategy(t1, k2, schema)
    ensures TopicRecordNameStrategy(t1, k1, schema) == Some(t1 + "-" + schema.fqn.value)
    ensures t1 != t2 ==> TopicRecordNameStrategy(t1, k1, schema) != TopicRecordNameStrategy(t2, k1, schema)
  {
  }
}

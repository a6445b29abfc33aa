// From the text of a log message to the message that the batching model takes
// (parse_sample_0, parse_sample_1, crc64 and extract_feature in src/io/parser.cpp). The labels
// that the learners give, atoi, atof and the words of the crc64 tables are parameters.
module MessageParse {
  import opened Wrappers
  import opened KvData
  import opened StringUtil
  import opened MessageText
  import opened FeatureText
  import opened Batching
  import Crc64
  import LearnerMath
  import Slicing

  datatype Env = Env(atoi: string -> int, atof: string -> real, tables: Crc64.Tables) {
    ghost predicate Ok() { IsAtoi(atoi) && Crc64.TablesOk(tables) }
  }

  function ByteOf(c: char): bv8 { (c as int % 256) as bv8 }

  /** The bytes of a string; its characters are bytes. */
  function Bytes(s: string): (r: seq<bv8>)
    ensures |r| == |s|
  {
    seq(|s|, i requires 0 <= i < |s| => ByteOf(s[i]))
  }

  /** A uint64_t as a key of the hash map. */
  function AsKey(x: bv64): Key { x as int }

  /** crc64 of a mark. */
  ghost function HashOf(env: Env, mark: string): Key
    requires env.Ok()
  {
    AsKey(Slicing.Run(Crc64.RowTable(env.tables, 0), 0, Bytes(mark)))
  }

  /** extract_feature, starting from the rate -1. */
  ghost function Extracted(env: Env, text: string): (real, seq<Key>)
    requires env.Ok()
  {
    match FeatureText.Fields(text)
    case None => (-1.0, [])
    case Some(fields) =>
      if fields == [] then (-1.0, []) else (env.atof(fields[0]), Positive(env.atoi, fields[1..]))
  }

  /** A message that the checks before the duplicate filter reject; its hash is not counted. */
  function NotCounted(kind: Kind, labels: seq<int>): Message {
    Message(kind, false, 0, false, -1.0, [], labels)
  }

  /** A counted message: with an advertisement section it has a rate and features. */
  ghost function Counted(env: Env, kind: Kind, mark: string, ad: Option<Ad>, labels: seq<int>): Message
    requires env.Ok()
  {
    match ad
    case None => Message(kind, true, HashOf(env, mark), false, -1.0, [], labels)
    case Some(a) =>
      var (ctr, features) := Extracted(env, a.features);
      Message(kind, true, HashOf(env, mark), true, ctr, features, labels)
  }

  /** Whether parsing stays inside the sections and fields of the message. */
  predicate InBounds(env: Env, kind: Kind, msg: string) {
    match kind
    case Impression => ImpressionOk(env.atoi, msg) ==> Many(SectionOf(LineOf(msg, 0), 1), '\t') >= 4
    case Behaviour => BehaviourOk(msg) ==> ImpressionThere(msg)
  }

  /** The message of a text. */
  ghost function Parse(env: Env, kind: Kind, msg: string, labels: seq<int>): Message
    requires env.Ok() && InBounds(env, kind, msg)
  {
    match kind
    case Impression =>
      if !ImpressionOk(env.atoi, msg) then NotCounted(kind, labels)
      else
        var line := LineOf(msg, 0);
        var fits := Many(SectionOf(line, 4), '\t') >= 1 && AdOk(SectionOf(line, 3));
        var ad := if fits then Some(AdOf(SectionOf(line, 3))) else None;
        Counted(env, kind, FieldOf(SectionOf(line, 1), 4), ad, labels)
    case Behaviour =>
      if !BehaviourOk(msg) || !AdOk(SectionOf(LineOf(msg, 1), 3)) then NotCounted(kind, labels)
      else
        var b, imp := LineOf(msg, 2), LineOf(msg, 1);
        var code, filter := FieldOf(SectionOf(b, 0), 7), FieldOf(SectionOf(b, 3), 0);
        Counted(env, kind, FieldOf(SectionOf(imp, 1), 4) + "-" + code + "-" + filter,
          Some(AdOf(SectionOf(imp, 3))), labels)
  }

  // ----- the methods together -----

  method Extract(env: Env, text: string) returns (ctr: real, features: seq<Key>)
    requires env.Ok()
    ensures (ctr, features) == Extracted(env, text)
  {
    hide Positive, Crc64.TablesOk, IsAtoi, FeatureText.Fields;
    ctr, features := ExtractFeature(env.atoi, env.atof, text, -1.0);
  }

  /** crc64 of a mark and extract_feature of the advertisement's text. */
  method CountMark(env: Env, kind: Kind, mark: string, ad: Option<Ad>, labels: seq<int>) returns (m: Message)
    requires env.Ok()
    ensures m == Counted(env, kind, mark, ad, labels)
  {
    hide Slicing.Run, Crc64.TablesOk, Crc64.RowTable, IsAtoi, Extracted, Bytes, AsKey;
    var crc := Crc64.Compute(env.tables, Bytes(mark));
    match ad
    case None => m := Message(kind, true, AsKey(crc), false, -1.0, [], labels);
    case Some(a) =>
      var ctr, features := Extract(env, a.features);
      m := Message(kind, true, AsKey(crc), true, ctr, features, labels);
  }

  /** parse_sample_0 and parse_sample_1; None when a read is out of bounds. */
  method ParseMessage(env: Env, kind: Kind, msg: string, labels: seq<int>) returns (r: Option<Message>)
    requires env.Ok()
    ensures r.Some? <==> InBounds(env, kind, msg)
    ensures r.Some? ==> r.value == Parse(env, kind, msg, labels)
  {
    hide ImpressionOk, BehaviourOk, AdOk, AdOf, Counted, Env.Ok;
    if kind == Impression {
      r := ParseImpression(env, msg, labels);
    } else {
      r := ParseBehaviour(env, msg, labels);
    }
  }

  method ParseImpression(env: Env, msg: string, labels: seq<int>) returns (r: Option<Message>)
    requires env.Ok()
    ensures r.Some? <==> InBounds(env, Impression, msg)
    ensures r.Some? ==> r.value == Parse(env, Impression, msg, labels)
  {
    hide AdOk, AdOf, Counted, Env.Ok, Occurrences, Split, Contains;
    var mark := ImpressionMark(env.atoi, msg);
    match mark
    case Rejected => r := Some(NotCounted(Impression, labels));
    case OutOfBounds => r := None;
    case Found(text) =>
      var ad := ImpressionAd(env.atoi, msg);
      var m := CountMark(env, Impression, text, if ad.Found? then Some(ad.fields) else None, labels);
      r := Some(m);
  }

  method ParseBehaviour(env: Env, msg: string, labels: seq<int>) returns (r: Option<Message>)
    requires env.Ok()
    ensures r.Some? <==> InBounds(env, Kind.Behaviour, msg)
    ensures r.Some? ==> r.value == Parse(env, Kind.Behaviour, msg, labels)
  {
    hide AdOk, AdOf, Counted, Env.Ok, Occurrences, Split, Contains;
    var b := ReadBehaviour(msg);
    match b
    case Rejected => r := Some(NotCounted(Kind.Behaviour, labels));
    case OutOfBounds => r := None;
    case Found(fields) =>
      var m := CountMark(env, Kind.Behaviour, fields.markid, Some(fields.ad), labels);
      r := Some(m);
  }

  // ----- what parsing promises the batching model -----

  /** Whatever the text: its features are at least 1 and below 2^31. */
  lemma ParsedFeaturesAreSmall(env: Env, kind: Kind, msg: string, labels: seq<int>)
    requires env.Ok() && InBounds(env, kind, msg)
    ensures var m := Parse(env, kind, msg, labels);
      forall i :: 0 <= i < |m.features| ==> 1 <= m.features[i] < LearnerMath.INT_LIMIT
  {
    hide AdOk, AdOf, HashOf, Extracted, Crc64.TablesOk, Occurrences, Split, Contains;
    if kind == Impression {
      var line := LineOf(msg, 0);
      if ImpressionOk(env.atoi, msg) && AdOk(SectionOf(line, 3)) {
        ExtractedAreSmall(env, AdOf(SectionOf(line, 3)).features);
      }
    } else if BehaviourOk(msg) && AdOk(SectionOf(LineOf(msg, 1), 3)) {
      ExtractedAreSmall(env, AdOf(SectionOf(LineOf(msg, 1), 3)).features);
    }
  }

  lemma ParsedLabels(env: Env, kind: Kind, msg: string, labels: seq<int>)
    requires env.Ok() && InBounds(env, kind, msg)
    ensures Parse(env, kind, msg, labels).kind == kind && Parse(env, kind, msg, labels).labels == labels
  {
    hide AdOk, AdOf, HashOf, Extracted, Crc64.TablesOk, Occurrences, Split, Contains;
  }

  lemma ExtractedAreSmall(env: Env, text: string)
    requires env.Ok()
    ensures var features := Extracted(env, text).1;
      forall i :: 0 <= i < |features| ==> 1 <= features[i] < LearnerMath.INT_LIMIT
  {
    hide Positive, Crc64.TablesOk, IsAtoi;
    var fields := FeatureText.Fields(text);
    if fields.Some? && fields.value != [] {
      FeaturesAreSmall(env.atoi, fields.value[1..]);
    }
  }
}

/** `DefaultLoggerFactory`: one logger per name, created on first request
    with levels chosen from the name, and handed out again on every later
    request for that name. */
module DefaultLoggerFactory {

  /** The levels `LogLevel` offers, lowest first. */
  datatype LogLevel = DEBUG | INFO | WARN | ERROR

  const ConsumerConfig: string := "org.apache.kafka.clients.consumer.ConsumerConfig"
  const ProducerConfig: string := "org.apache.kafka.clients.producer.ProducerConfig"

  /** The packages whose trace output is kept at INFO. */
  const QuietPackages: seq<string> := ["org.elasticsearch", "org.mongodb", "org.apache", "org.xnio"]

  /** `infoLevel`: WARN for the two Kafka configuration loggers, which log
      every setting at INFO, and INFO for every other logger. */
  function InfoLevel(name: string): (level: LogLevel)
    ensures level == WARN <==> name == ConsumerConfig || name == ProducerConfig
    ensures level == INFO <==> name != ConsumerConfig && name != ProducerConfig
  {
    if name == ConsumerConfig || name == ProducerConfig then WARN else INFO
  }

  /** `traceLevel`: INFO for loggers in the quiet packages (their names
      start with one of the package names), DEBUG for every other logger. */
  function TraceLevel(name: string): (level: LogLevel)
    ensures level == INFO <==> exists k :: 0 <= k < |QuietPackages| && QuietPackages[k] <= name
    ensures level == DEBUG <==> forall k :: 0 <= k < |QuietPackages| ==> !(QuietPackages[k] <= name)
  {
    assert QuietPackages == ["org.elasticsearch", "org.mongodb", "org.apache", "org.xnio"];
    assert QuietPackages[0] == "org.elasticsearch" && QuietPackages[1] == "org.mongodb";
    assert QuietPackages[2] == "org.apache" && QuietPackages[3] == "org.xnio";
    if "org.elasticsearch" <= name || "org.mongodb" <= name || "org.apache" <= name || "org.xnio" <= name
    then INFO else DEBUG
  }

  /** Prefixes compose: a prefix of a prefix of `name` is a prefix of it. */
  lemma PrefixTransitive(a: string, b: string, c: string)
    requires a <= b && b <= c
    ensures a <= c
  {
    assert c[..|b|][..|a|] == c[..|a|];
  }

  /** The trace level is inherited: every logger whose name extends the name
      of a logger with trace level INFO also has trace level INFO. */
  lemma TraceLevelInherited(parent: string, name: string)
    requires parent <= name && TraceLevel(parent) == INFO
    ensures TraceLevel(name) == INFO
  {
    var k :| 0 <= k < |QuietPackages| && QuietPackages[k] <= parent;
    PrefixTransitive(QuietPackages[k], parent, name);
  }

  /** The Kafka configuration loggers are in `org.apache`: they log at WARN
      and keep their trace output at INFO. */
  lemma KafkaConfigLevels()
    ensures InfoLevel(ConsumerConfig) == WARN && TraceLevel(ConsumerConfig) == INFO
    ensures InfoLevel(ProducerConfig) == WARN && TraceLevel(ProducerConfig) == INFO
    ensures forall name :: InfoLevel(name) == WARN ==> TraceLevel(name) == INFO
  {
    assert "org.apache" <= ConsumerConfig;
    assert "org.apache" <= ProducerConfig;
    assert QuietPackages[2] == "org.apache";
  }

  /** `LoggerImpl`: a logger and the levels it was created with. */
  class Logger {
    const name: string
    const infoLevel: LogLevel
    const traceLevel: LogLevel

    constructor (name: string, infoLevel: LogLevel, traceLevel: LogLevel)
      ensures this.name == name && this.infoLevel == infoLevel && this.traceLevel == traceLevel
    {
      this.name := name;
      this.infoLevel := infoLevel;
      this.traceLevel := traceLevel;
    }
  }

  /** The sequence holds no name twice. */
  predicate NoDuplicates(s: seq<string>)
  {
    forall p, q :: 0 <= p < q < |s| ==> s[p] != s[q]
  }

  class DefaultLoggerFactory {
    /** The `loggers` map. */
    var loggers: map<string, Logger>
    /** The names `createLogger` has run for, in order. */
    ghost var created: seq<string>

    /** Each logger is under its own name with the levels its name selects,
        and a logger was created exactly once for each name in the map. */
    ghost predicate Valid()
      reads this
    {
      && (forall name :: name in loggers ==>
            && loggers[name].name == name
            && loggers[name].infoLevel == InfoLevel(name)
            && loggers[name].traceLevel == TraceLevel(name))
      && NoDuplicates(created)
      && (forall name :: name in loggers <==> name in created)
    }

    constructor ()
      ensures Valid() && loggers == map[] && created == []
    {
      loggers := map[];
      created := [];
    }

    /** `createLogger`. */
    method CreateLogger(name: string) returns (logger: Logger)
      ensures fresh(logger)
      ensures logger.name == name && logger.infoLevel == InfoLevel(name) && logger.traceLevel == TraceLevel(name)
    {
      logger := new Logger(name, InfoLevel(name), TraceLevel(name));
    }

    /** `getLogger`: `computeIfAbsent(name, createLogger)`. A name seen
        before gets the same logger and nothing changes; a new name gets a
        fresh logger, the only entry added. */
    method GetLogger(name: string) returns (logger: Logger)
      requires Valid()
      modifies this
      ensures Valid()
      ensures logger.name == name && logger.infoLevel == InfoLevel(name) && logger.traceLevel == TraceLevel(name)
      ensures name in old(loggers) ==> logger == old(loggers)[name] && loggers == old(loggers) && created == old(created)
      ensures name !in old(loggers) ==>
        && fresh(logger)
        && loggers == old(loggers)[name := logger]
        && created == old(created) + [name]
      ensures loggers[name] == logger
    {
      if name in loggers {
        logger := loggers[name];
        return;
      }
      logger := CreateLogger(name);
      loggers := loggers[name := logger];
      created := created + [name];
    }
  }
}

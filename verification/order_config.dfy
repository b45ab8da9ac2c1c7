/**
 * The order service's configuration, read from the environment (passed in
 * as a map). Unlike the payment service it needs a database and refuses to
 * start without DATABASE_URL.
 */
module OrderConfig {
  import opened Wrappers
  import opened Text

  const MISSING_DATABASE := "DATABASE_URL is required"

  datatype Config = Config(serviceName: string, httpPort: string, databaseUrl: string,
                           kafkaBrokers: seq<string>, topicOrders: string, topicInventory: string,
                           topicPayments: string, groupId: string)

  /**
   * The configuration main builds, or the startup error when DATABASE_URL
   * is unset or blank. Every value is trimmed; defaults fill the rest.
   */
  function LoadConfig(environment: map<string, string>): (r: Result<Config, string>)
    ensures r.Failure? <==> Trim(Getenv(environment, "DATABASE_URL")) == []
    ensures r.Failure? ==> r.error == MISSING_DATABASE
    ensures r.Success? ==>
      && r.value.databaseUrl == Trim(Getenv(environment, "DATABASE_URL"))
      && r.value.serviceName != "" && r.value.httpPort != "" && r.value.groupId != ""
      && r.value.topicOrders != "" && r.value.topicInventory != "" && r.value.topicPayments != ""
      && forall k :: 0 <= k < |r.value.kafkaBrokers| ==> r.value.kafkaBrokers[k] != "" && Trimmed(r.value.kafkaBrokers[k])
  {
    var cfg := Config(
      Env(Getenv(environment, "SERVICE_NAME"), "order-service"),
      Env(Getenv(environment, "HTTP_PORT"), "8081"),
      Env(Getenv(environment, "DATABASE_URL"), ""),
      ParseCSV(Env(Getenv(environment, "KAFKA_BROKERS"), "localhost:9092")),
      Env(Getenv(environment, "KAFKA_TOPIC_ORDERS"), "redstone.orders"),
      Env(Getenv(environment, "KAFKA_TOPIC_INVENTORY"), "redstone.inventory"),
      Env(Getenv(environment, "KAFKA_TOPIC_PAYMENTS"), "redstone.payments"),
      Env(Getenv(environment, "KAFKA_GROUP_ID"), "order-service"));
    if cfg.databaseUrl == "" then Failure(MISSING_DATABASE) else Success(cfg)
  }

  /** With only the database named, the service uses its default port, topics, group and one local broker. */
  lemma DefaultConfig(environment: map<string, string>, url: string)
    requires "DATABASE_URL" in environment && environment["DATABASE_URL"] == url
    requires url != [] && Trimmed(url)
    requires forall key :: key in environment && key != "DATABASE_URL" ==> AllSpace(environment[key])
    ensures LoadConfig(environment) == Success(Config("order-service", "8081", url, ["localhost:9092"],
      "redstone.orders", "redstone.inventory", "redstone.payments", "order-service"))
  {
    TrimOfTrimmed(url);
    UnsetReadsDefault(environment, "SERVICE_NAME", "order-service");
    UnsetReadsDefault(environment, "HTTP_PORT", "8081");
    UnsetReadsDefault(environment, "KAFKA_BROKERS", "localhost:9092");
    UnsetReadsDefault(environment, "KAFKA_TOPIC_ORDERS", "redstone.orders");
    UnsetReadsDefault(environment, "KAFKA_TOPIC_INVENTORY", "redstone.inventory");
    UnsetReadsDefault(environment, "KAFKA_TOPIC_PAYMENTS", "redstone.payments");
    UnsetReadsDefault(environment, "KAFKA_GROUP_ID", "order-service");
    LocalBroker();
  }
}

/**
 * The payment service: a mock provider that consumes the inventory topic
 * and answers every InventoryReserved with a payment outcome on the
 * payments topic. Its configuration is read from the environment, passed
 * in here as a map.
 */
module Payment {
  import opened Wrappers
  import opened Text
  import opened Events

  const MOCK_DECLINE := "mock decline"

  predicate HasSuffix(s: string, suffix: string) {
    |suffix| <= |s| && s[|s| - |suffix|..] == suffix
  }

  /**
   * consumeInventoryLoop, one message: only a decodable InventoryReserved
   * produces output. An order id ending in "0" is declined with
   * PaymentFailed("mock decline"); any other is captured with amount 0.
   * The outcome is keyed by the order id and continues the correlation.
   */
  function Decide(m: Message, stamp: Stamp): (out: seq<Published>)
    ensures |out| <= 1
    ensures |out| == 1 <==> m.Envelope? && m.eventType == INVENTORY_RESERVED && m.decoded.Some?
    ensures |out| == 1 ==>
      var f := m.decoded.value;
      var e := out[0].event;
      && out[0].key == f.orderId
      && WellTyped(e)
      && e.orderId == f.orderId
      && e.base.correlationId == f.correlationId
      && e.base.eventId == stamp.eventId
      && (e.PaymentFailed? <==> HasSuffix(f.orderId, "0"))
      && (e.PaymentFailed? ==> e.reason == MOCK_DECLINE)
      && (!e.PaymentFailed? ==> e.PaymentCaptured? && e.amount == 0)
  {
    if m.Unparseable? || m.eventType != INVENTORY_RESERVED || m.decoded.None? then
      []
    else
      var f := m.decoded.value;
      if HasSuffix(f.orderId, "0") then
        [Published(f.orderId, PaymentFailed(NewBase(stamp, PAYMENT_FAILED, f.correlationId), f.orderId, MOCK_DECLINE))]
      else
        [Published(f.orderId, PaymentCaptured(NewBase(stamp, PAYMENT_CAPTURED, f.correlationId), f.orderId, 0))]
  }

  /** The payment service's configuration. */
  datatype Config = Config(serviceName: string, httpPort: string, kafkaBrokers: seq<string>,
                           topicInventory: string, topicPayments: string, groupId: string)

  /** The configuration main builds, each value from env with its default. */
  function LoadConfig(environment: map<string, string>): (c: Config)
    ensures c.serviceName != "" && c.httpPort != "" && c.groupId != ""
    ensures c.topicInventory != "" && c.topicPayments != ""
    ensures forall k :: 0 <= k < |c.kafkaBrokers| ==> c.kafkaBrokers[k] != "" && Trimmed(c.kafkaBrokers[k])
  {
    Config(
      Env(Getenv(environment, "SERVICE_NAME"), "payment-service"),
      Env(Getenv(environment, "HTTP_PORT"), "8083"),
      ParseCSV(Env(Getenv(environment, "KAFKA_BROKERS"), "localhost:9092")),
      Env(Getenv(environment, "KAFKA_TOPIC_INVENTORY"), "redstone.inventory"),
      Env(Getenv(environment, "KAFKA_TOPIC_PAYMENTS"), "redstone.payments"),
      Env(Getenv(environment, "KAFKA_GROUP_ID"), "payment-service"))
  }

  /** With nothing set (or only blanks), the service talks to one local broker with its default names. */
  lemma DefaultConfig(environment: map<string, string>)
    requires forall key :: key in environment ==> AllSpace(environment[key])
    ensures LoadConfig(environment) ==
      Config("payment-service", "8083", ["localhost:9092"], "redstone.inventory", "redstone.payments", "payment-service")
  {
    UnsetReadsDefault(environment, "SERVICE_NAME", "payment-service");
    UnsetReadsDefault(environment, "HTTP_PORT", "8083");
    UnsetReadsDefault(environment, "KAFKA_BROKERS", "localhost:9092");
    UnsetReadsDefault(environment, "KAFKA_TOPIC_INVENTORY", "redstone.inventory");
    UnsetReadsDefault(environment, "KAFKA_TOPIC_PAYMENTS", "redstone.payments");
    UnsetReadsDefault(environment, "KAFKA_GROUP_ID", "payment-service");
    LocalBroker();
  }
}

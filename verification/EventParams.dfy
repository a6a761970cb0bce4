/** The filter a client subscribes with, and the chain data it is applied to. */
module EventTypes {

  /** The largest number of topic positions that take part in matching. */
  const MAX_TOPICS: nat := 4

  const TWO_32: nat := 0x1_0000_0000
  const INT64_MAX: int := 0x7FFF_FFFF_FFFF_FFFF
  const INT64_MIN: int := -0x8000_0000_0000_0000

  predicate IsInt64(n: int) { INT64_MIN <= n <= INT64_MAX }

  datatype Option<+T> = None | Some(value: T)

  /** A block range, a set of contract addresses and one set of topics per position.
      An empty set accepts everything at its place. */
  datatype Params = Params(fromBlock: int, toBlock: int, addresses: set<string>, topics: seq<set<string>>)

  /** The text the source compares for a topic of a log entry: a 32-byte hash in lower-case hexadecimal. */
  predicate IsTopic(t: string) {
    |t| == 64 && forall i :: 0 <= i < |t| ==> '0' <= t[i] <= '9' || 'a' <= t[i] <= 'f'
  }

  type Topic = t: string | IsTopic(t) witness seq(64, _ => '0')

  const ZERO_TOPIC: Topic := seq(64, _ => '0')

  /** Addresses and data are kept as the unprefixed text the source compares. */
  datatype LogEntry = LogEntry(address: string, topics: seq<Topic>, data: string)

  /** A transaction of a block together with its receipt. */
  datatype Executed = Executed(txHash: string, blockNumber: int, logs: seq<LogEntry>)

  datatype Block = Block(txs: seq<Executed>)

  /** One JSON object of a push message. */
  datatype Entry = Entry(blockNumber: int, address: string, data: string, logIndex: nat,
                         txHash: string, txIndex: nat, topics: seq<string>)

  /** The topics a filter asks for at position `i`; a position it does not have asks for nothing. */
  function TopicsAt(topics: seq<set<string>>, i: nat): set<string> {
    if i < |topics| then topics[i] else {}
  }

  /** `std::vector::resize`: cuts off the tail or pads with empty sets. */
  function Resize(topics: seq<set<string>>, n: nat): (r: seq<set<string>>)
    ensures |r| == n
    ensures forall i :: 0 <= i < n ==> r[i] == TopicsAt(topics, i)
  {
    if n <= |topics| then topics[..n] else topics + seq(n - |topics|, _ => {})
  }

  /** The topic table after adding `topic` at position `index`. */
  function WithTopic(topics: seq<set<string>>, index: nat, topic: string): seq<set<string>> {
    if index >= MAX_TOPICS then topics
    else
      var r := Resize(topics, index + 1);
      r[index := r[index] + {topic}]
  }

  /** The subscription filter while a request is being parsed. */
  class EventSubParams {
    var fromBlock: int
    var toBlock: int
    var addresses: set<string>
    var topics: seq<set<string>>

    function View(): Params
      reads this
    {
      Params(fromBlock, toBlock, addresses, topics)
    }

    constructor ()
      ensures View() == Params(-1, -1, {}, [])
    {
      fromBlock, toBlock, addresses, topics := -1, -1, {}, [];
    }

    method AddAddress(address: string)
      modifies this`addresses
      ensures View() == old(View()).(addresses := old(addresses) + {address})
    {
      addresses := addresses + {address};
    }

    /** Adding at an index below the current length drops the positions behind it:
        the table is always cut to `index + 1`. */
    method AddTopic(index: nat, topic: string) returns (added: bool)
      modifies this`topics
      ensures added <==> index < MAX_TOPICS
      ensures View() == old(View()).(topics := WithTopic(old(topics), index, topic))
      ensures added ==> |topics| == index + 1 && topic in topics[index]
      ensures added ==> forall i :: 0 <= i < index ==> topics[i] == TopicsAt(old(topics), i)
    {
      if index >= MAX_TOPICS {
        return false;
      }
      topics := Resize(topics, index + 1);
      topics := topics[index := topics[index] + {topic}];
      return true;
    }
  }
}

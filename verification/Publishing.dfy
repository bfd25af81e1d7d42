/** One channel's keys in Redis, and `publish_message` against them. */
module Publishing {
  import opened Prelude
  import CL = ChannelLog

  class ChannelStore {
    const maxlen: nat
    var counter: nat
    var stream: seq<Entry>

    /** The channel as the interleaving model sees it. */
    ghost var model: CL.Channel

    ghost predicate Valid()
      reads this
    {
      counter == model.counter && stream == model.stream
    }

    constructor (maxlen: nat)
      ensures Valid() && model == CL.EMPTY && this.maxlen == maxlen
    {
      this.maxlen := maxlen;
      counter, stream, model := 0, [], CL.EMPTY;
    }

    /** INCR, on behalf of a publisher that is not in the middle of another publish. */
    method AllocateSequence(task: nat, id: string, payload: string) returns (sequence: nat)
      requires Valid() && task !in model.publishers
      modifies this
      ensures Valid() && model == CL.Step(maxlen, old(model), CL.Allocate(task, id, payload))
      ensures model.publishers[task] == CL.Allocated(Entry(id, sequence, payload))
    {
      counter := counter + 1;
      model := CL.Step(maxlen, model, CL.Allocate(task, id, payload));
      return counter;
    }

    /** XADD with an exact length bound, then the age trim, which finds `expired` entries
        too old; the one just added is not among them. */
    method AppendToBuffer(task: nat, entry: Entry, expired: nat)
      requires Valid() && task in model.publishers && model.publishers[task] == CL.Allocated(entry)
      requires maxlen >= 1 ==> expired < |CL.Newest(stream + [entry], maxlen)|
      modifies this
      ensures Valid()
      ensures model == CL.Step(maxlen, CL.Step(maxlen, old(model), CL.Append(task)), CL.AgeTrim(expired))
      ensures var all := old(stream) + [entry];
        stream == if maxlen == 0 then [] else all[|all| - Min(maxlen, |all|) + expired..]
    {
      stream := stream + [entry];
      if |stream| > maxlen {
        stream := stream[|stream| - maxlen..];
      }
      model := CL.Step(maxlen, model, CL.Append(task));
      if expired < |stream| {
        stream := stream[expired..];
      }
      model := CL.Step(maxlen, model, CL.AgeTrim(expired));
    }

    /** `publish_message` with nobody in between: the next number is taken, appended and
        announced, and a channel in order stays in order. */
    method PublishMessage(task: nat, id: string, payload: string, expired: nat) returns (sequence: nat)
      requires Valid() && task !in model.publishers
      requires maxlen >= 1 ==> expired < |CL.Newest(stream + [Entry(id, counter + 1, payload)], maxlen)|
      modifies this
      ensures Valid() && sequence == old(counter) + 1 == counter
      ensures model.appended == old(model.appended) + [Entry(id, sequence, payload)]
      ensures model.announced == old(model.announced) + [Entry(id, sequence, payload)]
      ensures model.publishers == old(model.publishers)
      ensures old(CL.InOrder(model) && model.publishers == map[]) ==> CL.InOrder(model)
    {
      sequence := AllocateSequence(task, id, payload);
      AppendToBuffer(task, Entry(id, sequence, payload), expired);
      model := CL.Step(maxlen, model, CL.Announce(task));
      assert model.publishers == old(model.publishers);
    }
  }
}

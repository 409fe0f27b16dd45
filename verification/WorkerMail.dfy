/** What the messages on their way to the worker bring. */
module WorkerMail {
  import opened WorkerLoop

  datatype Item = TaskItem(task: TaskId) | OpItem(key: Key)

  function Carries(m: Msg, i: Item): nat {
    match i
    case TaskItem(t) => if m.Spawn? then multiset(m.tasks)[t] else 0
    case OpItem(k) => if m.Submit? && m.submission.key == k then 1 else 0
  }

  /** How often messages bring it. */
  function Brought(msgs: seq<Msg>, i: Item): nat {
    if msgs == [] then 0 else Carries(msgs[0], i) + Brought(msgs[1..], i)
  }

  lemma {:induction false} BroughtConcat(a: seq<Msg>, b: seq<Msg>, i: Item)
    ensures Brought(a + b, i) == Brought(a, i) + Brought(b, i)
  {
    if a == [] {
      assert a + b == b;
    } else {
      BroughtConcat(a[1..], b, i);
      assert (a + b)[1..] == a[1..] + b;
    }
  }

  function InMail(mail: Mail, i: Item): nat {
    Brought(mail.channel, i) + Brought(mail.calls, i)
  }

  lemma CallBrings(mail: Mail, m: Msg, i: Item)
    ensures InMail(Call(mail, m), i) == InMail(mail, i) + Carries(m, i)
  {
    BroughtConcat(mail.calls, [m], i);
    assert Brought([m], i) == Carries(m, i) + Brought([], i);
  }

  lemma PushMoves(mail: Mail, call: nat, i: Item)
    requires call < |mail.calls|
    ensures InMail(Push(mail, call), i) == InMail(mail, i)
  {
    var m := mail.calls[call];
    BroughtConcat(mail.channel, [m], i);
    BroughtConcat(mail.calls[..call], [m] + mail.calls[call + 1..], i);
    BroughtConcat([m], mail.calls[call + 1..], i);
    BroughtConcat(mail.calls[..call], mail.calls[call + 1..], i);
    assert mail.calls == mail.calls[..call] + ([m] + mail.calls[call + 1..]);
  }
}

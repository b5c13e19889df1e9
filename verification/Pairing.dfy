/** A history read message by message: which ids of the last batch still wait for their
    results, and which histories no continuation can make well paired. */
module Pairing {
  import opened History
  import opened Seqs
  import opened Shared

  /** The ids waiting, in order; None once a message stands where it must not. */
  type Due = Option<seq<CallId>>

  function Advance(due: Due, m: Message): Due {
    if due.None? then None
    else if due.value == [] then
      if IsBatch(m) then Some(Ids(m.calls)) else if m.role == Tool then None else Some([])
    else if m.role == Tool && m.callId == due.value[0] then Some(due.value[1..]) else None
  }

  function Read(due: Due, messages: seq<Message>): Due
    decreases |messages|
  {
    if |messages| == 0 then due else Read(Advance(due, messages[0]), messages[1..])
  }

  function Waiting(history: seq<Message>): Due {
    Read(Some([]), history)
  }

  lemma {:induction false} ReadConcat(due: Due, a: seq<Message>, b: seq<Message>)
    ensures Read(due, a + b) == Read(Read(due, a), b)
    decreases |a|
  {
    if |a| == 0 {
      EmptyLeft(b);
    } else {
      ReadConcat(Advance(due, a[0]), a[1..], b);
      DropConcat(a, b, 1);
    }
  }

  lemma ReadOne(due: Due, m: Message)
    ensures Read(due, [m]) == Advance(due, m)
  {
  }

  lemma {:induction false} ReadNone(messages: seq<Message>)
    ensures Read(None, messages) == None
  {
    if |messages| > 0 {
      ReadNone(messages[1..]);
    }
  }

  /** The first |ids| messages answer ids, one for one. */
  predicate Answering(ids: seq<CallId>, messages: seq<Message>) {
    |messages| <= |ids| &&
    forall k :: 0 <= k < |messages| ==> messages[k].role == Tool && messages[k].callId == ids[k]
  }

  /** Tool messages are read exactly as far as they answer the waiting ids in order. */
  lemma {:induction false} ReadTools(ids: seq<CallId>, results: seq<Message>)
    requires forall k :: 0 <= k < |results| ==> results[k].role == Tool
    ensures Read(Some(ids), results) == if Answering(ids, results) then Some(ids[|results|..]) else None
  {
    if |results| > 0 {
      if ids == [] || results[0].callId != ids[0] {
        ReadNone(results[1..]);
      } else {
        ReadTools(ids[1..], results[1..]);
        AnsweringRest(ids, results);
      }
    }
  }

  lemma AnsweringRest(ids: seq<CallId>, results: seq<Message>)
    requires |ids| > 0 && |results| > 0 && results[0].role == Tool && results[0].callId == ids[0]
    ensures Answering(ids, results) <==> Answering(ids[1..], results[1..])
    ensures |results| <= |ids| ==> ids[1..][|results[1..]|..] == ids[|results|..]
  {
    if Answering(ids[1..], results[1..]) {
      forall k | 0 <= k < |results| ensures results[k].role == Tool && results[k].callId == ids[k] {
        assert k > 0 ==> results[1..][k - 1] == results[k];
      }
    }
  }

  /** While ids wait, a reading goes on only through their results. */
  lemma {:induction false} ReadThrough(ids: seq<CallId>, messages: seq<Message>)
    requires Read(Some(ids), messages) == Some([])
    ensures |ids| <= |messages| && Answering(ids, messages[..|ids|])
    ensures Read(Some([]), messages[|ids|..]) == Some([])
  {
    if |ids| > 0 {
      if |messages| > 0 && Advance(Some(ids), messages[0]).None? {
        ReadNone(messages[1..]);
      }
      ReadThrough(ids[1..], messages[1..]);
      assert messages[1..][|ids| - 1..] == messages[|ids|..];
      assert messages[1..][..|ids| - 1] == messages[..|ids|][1..];
      AnsweringRest(ids, messages[..|ids|]);
    }
  }

  /** A history is well paired exactly when its reading ends with nothing waiting. */
  lemma {:induction false} PairedIsRead(history: seq<Message>)
    ensures Paired(history) <==> Waiting(history) == Some([])
    decreases |history|, 1
  {
    if |history| > 0 {
      var m, rest := history[0], history[1..];
      if IsBatch(m) {
        PairedBatchIsRead(history);
      } else if m.role == Tool {
        ReadNone(rest);
      } else {
        PairedIsRead(rest);
      }
    }
  }

  lemma {:induction false} PairedBatchIsRead(history: seq<Message>)
    requires |history| > 0 && IsBatch(history[0])
    ensures Paired(history) <==> Waiting(history) == Some([])
    decreases |history|, 0
  {
    var ids, rest := Ids(history[0].calls), history[1..];
    var n := |ids|;
    PairedUnfolds(history);
    if Read(Some(ids), rest) == Some([]) {
      ReadThrough(ids, rest);
      assert rest[n..] == history[1 + n..] && rest[..n] == history[1..1 + n];
      PairedIsRead(history[1 + n..]);
    } else if n < |history| && Matches(history[0].calls, history[1..1 + n]) {
      ReadTools(ids, history[1..1 + n]);
      assert rest == history[1..1 + n] + history[1 + n..];
      ReadConcat(Some(ids), history[1..1 + n], history[1 + n..]);
      PairedIsRead(history[1 + n..]);
    }
  }

  // -------------------------------------------------------- beyond repair

  ghost predicate Broken(history: seq<Message>) {
    Waiting(history).None?
  }

  /** A history is broken exactly when nothing that could follow makes it well paired. */
  lemma BrokenForGood(history: seq<Message>, text: Text)
    ensures Broken(history) <==> forall more :: !Paired(history + more)
  {
    if Broken(history) {
      forall more ensures !Paired(history + more) {
        BrokenGrows(history, more);
      }
    } else {
      var more := Failures(Waiting(history).value, [], text);
      ReadTools(Waiting(history).value, more);
      ReadConcat(Some([]), history, more);
      PairedIsRead(history + more);
    }
  }

  lemma BrokenGrows(history: seq<Message>, more: seq<Message>)
    requires Broken(history)
    ensures Broken(history + more) && !Paired(history + more)
  {
    ReadConcat(Some([]), history, more);
    ReadNone(more);
    PairedIsRead(history + more);
  }

  /** Healing a well-paired history with an empty id breaks it for good: the failure of the
      empty id answers no call next to it. */
  lemma {:induction false} HealBreaks(history: seq<Message>, reason: Text)
    requires Paired(history) && NoId in CallIds(history)
    ensures Broken(Healed(history, reason))
  {
    var fix := Failures(OpenIds(history), AllCalls(history), reason);
    assert NoId in OpenIds(history);
    PairedIsRead(history);
    ReadConcat(Some([]), history, fix);
    ReadTools([], fix);
  }

  /** Where no batch dangles, healing gives a well-paired history exactly if it was one and
      calls no empty id. */
  lemma {:induction false} HealedIsPaired(history: seq<Message>, reason: Text)
    requires Paired(history) || Broken(history)
    ensures Paired(Healed(history, reason)) <==> Paired(history) && NoId !in CallIds(history)
  {
    var healed := Healed(history, reason);
    PairedIsRead(history);
    PairedIsRead(healed);
    if Broken(history) {
      BrokenGrows(history, Failures(OpenIds(history), AllCalls(history), reason));
    } else if NoId in CallIds(history) {
      HealBreaks(history, reason);
    } else {
      PairedIsClosed(history);
      HealCloses(history, reason);
    }
  }

  /** Nothing but tool messages and plain ones: no batch. */
  predicate NoBatch(messages: seq<Message>) {
    forall k :: 0 <= k < |messages| ==> !IsBatch(messages[k])
  }

  /** Where ids wait, other messages before their results break the history, whatever they
      are, as long as they call nothing. */
  lemma {:induction false} MeanwhileBreaks(ids: seq<CallId>, meanwhile: seq<Message>, results: seq<Message>)
    requires NoBatch(meanwhile) && |results| > 0 && |ids| <= |results|
    requires forall k :: 0 <= k < |results| ==> results[k].role == Tool
    requires |ids| < |results| || meanwhile != []
    ensures Read(Some(ids), meanwhile + results) == None
    decreases |meanwhile|
  {
    if |meanwhile| == 0 {
      EmptyLeft(results);
      ReadTools(ids, results);
    } else {
      DropConcat(meanwhile, results, 1);
      var due := Advance(Some(ids), meanwhile[0]);
      if due.None? {
        ReadNone(meanwhile[1..] + results);
      } else {
        MeanwhileBreaks(due.value, meanwhile[1..], results);
      }
    }
  }
}

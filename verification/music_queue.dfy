/** The per-guild music queue: a FIFO of tracks, the track now playing,
    a loop flag that replays the current track, and the queue listing. */
module MusicQueue {
  import opened Common

  /** `MusicQueue`; `volume` is carried along but never read here. */
  datatype Queue<T> = Queue(items: seq<T>, current: Option<T>, volume: real, loop: bool)

  function NewQueue<T>(): (q: Queue<T>)
    ensures q.items == [] && q.current.None? && !q.loop && q.volume == 0.5
  {
    Queue([], None, 0.5, false)
  }

  /** `add`: the track goes to the back of the queue. */
  function Add<T>(q: Queue<T>, track: T): (r: Queue<T>)
    ensures r.items == q.items + [track]
    ensures r.current == q.current && r.loop == q.loop && r.volume == q.volume
  {
    q.(items := q.items + [track])
  }

  /** `get_next`: with looping on and a current track, that track again;
      otherwise the front of the queue, which becomes the current track. */
  function GetNext<T>(q: Queue<T>): (r: (Queue<T>, Option<T>))
    ensures q.loop && q.current.Some? ==> r == (q, q.current)
    ensures !(q.loop && q.current.Some?) && q.items == [] ==> r == (q, None)
    ensures !(q.loop && q.current.Some?) && q.items != [] ==>
      && r.1 == Some(q.items[0])
      && [q.items[0]] + r.0.items == q.items
      && r.0.current == r.1
    ensures r.0.loop == q.loop && r.0.volume == q.volume
  {
    if q.loop && q.current.Some? then (q, q.current)
    else if q.items != [] then
      (q.(items := q.items[1..], current := Some(q.items[0])), Some(q.items[0]))
    else (q, None)
  }

  /** `clear`: empties the queue and keeps the rest. */
  function Clear<T>(q: Queue<T>): (r: Queue<T>)
    ensures r.items == [] && r.current == q.current && r.loop == q.loop && r.volume == q.volume
  {
    q.(items := [])
  }

  predicate IsEmpty<T>(q: Queue<T>) {
    |q.items| == 0
  }

  /** Adds every track of `tracks` in order. */
  function AddAll<T>(q: Queue<T>, tracks: seq<T>): Queue<T>
    decreases |tracks|
  {
    if tracks == [] then q else AddAll(Add(q, tracks[0]), tracks[1..])
  }

  /** The tracks `n` successive `get_next` calls hand out (None for a call
      that finds nothing), and the queue afterwards. */
  function Drain<T>(q: Queue<T>, n: nat): (seq<Option<T>>, Queue<T>)
    decreases n
  {
    if n == 0 then ([], q)
    else
      var next := GetNext(q);
      var rest := Drain(next.0, n - 1);
      ([next.1] + rest.0, rest.1)
  }

  function Somes<T>(s: seq<T>): (r: seq<Option<T>>)
    ensures |r| == |s| && forall i :: 0 <= i < |s| ==> r[i] == Some(s[i])
  {
    if s == [] then [] else [Some(s[0])] + Somes(s[1..])
  }

  lemma {:induction false} AddAllAppends<T>(q: Queue<T>, tracks: seq<T>)
    ensures AddAll(q, tracks).items == q.items + tracks
    ensures AddAll(q, tracks).current == q.current && AddAll(q, tracks).loop == q.loop
    decreases |tracks|
  {
    if tracks != [] {
      AddAllAppends(Add(q, tracks[0]), tracks[1..]);
      assert q.items + [tracks[0]] + tracks[1..] == q.items + tracks;
    }
  }

  /** Without looping, the queue hands its tracks out in the order they
      are queued, and is empty afterwards. */
  lemma {:induction false} FifoOrder<T>(q: Queue<T>)
    requires !q.loop
    ensures Drain(q, |q.items|).0 == Somes(q.items)
    ensures IsEmpty(Drain(q, |q.items|).1)
    decreases |q.items|
  {
    if q.items != [] {
      var next := GetNext(q);
      FifoOrder(next.0);
      assert |next.0.items| == |q.items| - 1;
      assert Somes(q.items) == [Some(q.items[0])] + Somes(q.items[1..]);
    }
  }

  /** Tracks added to an idle queue come back out in the order added. */
  lemma AddAllThenDrain<T>(tracks: seq<T>)
    ensures Drain(AddAll(NewQueue<T>(), tracks), |tracks|).0 == Somes(tracks)
  {
    AddAllAppends(NewQueue<T>(), tracks);
    FifoOrder(AddAll(NewQueue<T>(), tracks));
  }

  /** With looping on, once a track plays it plays forever and the queue
      is left alone. */
  lemma {:induction false} LoopRepeats<T>(q: Queue<T>, n: nat)
    requires q.loop && q.current.Some?
    ensures Drain(q, n).1 == q
    ensures forall i :: 0 <= i < |Drain(q, n).0| ==> Drain(q, n).0[i] == q.current
    ensures |Drain(q, n).0| == n
  {
    if n > 0 {
      LoopRepeats(q, n - 1);
    }
  }

  /** `get_music_queue`: one queue per guild, created on first use. */
  function GetMusicQueue<T>(queues: map<int, Queue<T>>, guild: int): (r: (map<int, Queue<T>>, Queue<T>))
    ensures guild in r.0 && r.0[guild] == r.1
    ensures guild in queues ==> r.0 == queues
    ensures guild !in queues ==> r.1 == NewQueue() && r.0 == queues[guild := NewQueue()]
  {
    if guild in queues then (queues, queues[guild])
    else (queues[guild := NewQueue()], NewQueue())
  }

  /** A second lookup gets the queue the first one created or found. */
  lemma GetMusicQueueStable<T>(queues: map<int, Queue<T>>, guild: int)
    ensures var first := GetMusicQueue(queues, guild);
      GetMusicQueue(first.0, guild) == first
  {
  }

  const ListedMax: nat := 10

  function EntryLine(i: nat, title: string): string {
    "`" + IntToString(i) + ".` **" + title + "**"
  }

  function MoreNote(n: nat): string {
    "他に" + IntToString(n) + "曲"
  }

  /** The queue listing: the first ten titles numbered from 1, and a note
      with how many more are queued. */
  function Listing(titles: seq<string>): (r: (seq<string>, Option<string>))
    ensures |r.0| == if |titles| < ListedMax then |titles| else ListedMax
    ensures forall i :: 0 <= i < |r.0| ==> r.0[i] == EntryLine(i + 1, titles[i])
    ensures r.1.Some? <==> |titles| > ListedMax
    ensures r.1.Some? ==> r.1.value == MoreNote(|titles| - |r.0|)
  {
    var shown := Take(titles, ListedMax);
    (Lines(shown, 1), if |titles| > ListedMax then Some(MoreNote(|titles| - ListedMax)) else None)
  }

  function Lines(titles: seq<string>, from: nat): (r: seq<string>)
    ensures |r| == |titles|
    ensures forall i :: 0 <= i < |r| ==> r[i] == EntryLine(from + i, titles[i])
  {
    seq(|titles|, i requires 0 <= i < |titles| => EntryLine(from + i, titles[i]))
  }
}

/**
  The RPC channel of lib/agent.h: the parent posts a request and notifies the child,
  the child answers and notifies the parent, and each of the two resets the
  notification it has waited for.  The parent stands for whichever thread holds
  rpc_mutex_; calls follow one another without end.
 */
module AgentRpc {
  import opened Notifications

  /** A response: its code and the rest of its data. */
  datatype Response = Response(code: int, data: int)

  const ENODEV: int := 19
  const Blank := Response(-1, 0)

  datatype Call = Call(req: int, args: int)

  datatype Parent =
    | Idle
    | PostReq(call: Call)
    | PostArgs(call: Call)
    | Notifying(call: Call, n: NotifyPc)   // rpc_pending_.Notify()
    | Awaiting(call: Call, w: WaitPc)      // rpc_done_.WaitForNotification()
    | Resetting(call: Call)                // rpc_done_.Reset()
    | Reading(call: Call)

  datatype Child =
    | Listening(w: WaitPc)                 // rpc_pending_.WaitForNotification()
    | Clearing                             // rpc_pending_.Reset()
    | Asking                               // is the enclave online?
    | Blanking                             // resets the response
    | Handling                             // RpcHandler reads the request
    | Answering(call: Call)                // RpcHandler writes the response
    | Refusing                             // offline: writes the code alone
    | Announcing(n: NotifyPc)              // rpc_done_.Notify()

  /** What the child did for one request. */
  datatype Service = Service(call: Call, online: bool, res: Response)

  /** The shared memory, both threads, and a record of the calls issued by the parent,
      served by the child and returned to the callers. */
  datatype Rpc = Rpc(pending: Flag, done: Flag, req: int, args: int, res: Response,
                     parent: Parent, child: Child,
                     issued: seq<Call>, served: seq<Service>, results: seq<Response>)

  datatype Move =
    | Begin(call: Call)                                       // a caller takes the mutex
    | ParentMoves(luck: Luck)
    | ChildMoves(luck: Luck, online: bool, answer: Response)  // answer: what RpcHandler leaves

  ghost function Start(req: int, args: int): Rpc {
    Rpc(NoWaiter, NoWaiter, req, args, Blank, Idle, Listening(WaitLoad), [], [], [])
  }

  /** One atomic step of the parent. */
  ghost function ParentDoes(s: Rpc, luck: Luck): Rpc {
    match s.parent
    case Idle => s
    case PostReq(c) => s.(req := c.req, parent := PostArgs(c))
    case PostArgs(c) => s.(args := c.args, parent := Notifying(c, NotifyLoad))
    case Notifying(c, n) =>
      var r := NotifyStep(s.pending, n, luck);
      s.(pending := r.0,
         parent := if r.1.Finished? then Awaiting(c, WaitLoad) else Notifying(c, r.1),
         child := if n.NotifyWake? && s.child.Listening? then Listening(Woken(s.child.w)) else s.child)
    case Awaiting(c, w) =>
      var r := WaitStep(s.done, w, luck);
      s.(done := r.0, parent := if r.1.Returned? then Resetting(c) else Awaiting(c, r.1))
    case Resetting(c) => s.(done := NoWaiter, parent := Reading(c))
    case Reading(c) => s.(results := s.results + [s.res], parent := Idle)
  }

  /** One atomic step of the child. */
  ghost function ChildDoes(s: Rpc, luck: Luck, online: bool, answer: Response): Rpc {
    match s.child
    case Listening(w) =>
      var r := WaitStep(s.pending, w, luck);
      s.(pending := r.0, child := if r.1.Returned? then Clearing else Listening(r.1))
    case Clearing => s.(pending := NoWaiter, child := Asking)
    case Asking => s.(child := if online then Blanking else Refusing)
    case Blanking => s.(res := Blank, child := Handling)
    case Handling => s.(child := Answering(Call(s.req, s.args)))
    case Answering(c) => Serve(s, Service(c, true, answer))
    case Refusing => Serve(s, Service(Call(s.req, s.args), false, s.res.(code := -ENODEV)))
    case Announcing(n) =>
      var r := NotifyStep(s.done, n, luck);
      s.(done := r.0,
         child := if r.1.Finished? then Listening(WaitLoad) else Announcing(r.1),
         parent := if n.NotifyWake? && s.parent.Awaiting? then s.parent.(w := Woken(s.parent.w)) else s.parent)
  }

  ghost function Serve(s: Rpc, service: Service): Rpc {
    s.(res := service.res, served := s.served + [service], child := Announcing(NotifyLoad))
  }

  ghost function Moved(s: Rpc, move: Move): Rpc {
    match move
    case Begin(c) => if s.parent.Idle? then s.(parent := PostReq(c), issued := s.issued + [c]) else s
    case ParentMoves(luck) => ParentDoes(s, luck)
    case ChildMoves(luck, online, answer) => ChildDoes(s, luck, online, answer)
  }

  ghost function After(s: Rpc, moves: seq<Move>): Rpc
    decreases |moves|
  {
    if moves == [] then s else Moved(After(s, moves[..|moves| - 1]), moves[|moves| - 1])
  }

  // ---------------------------------------------------------------- the four phases of a call

  ghost predicate Before(n: NotifyPc, flag: Flag) {
    && !n.NotifyWake? && !n.Finished?
    && (n.NotifyCheck? || n.NotifySwap? ==> n.seen == flag || n.seen.NoWaiter?)
  }

  /** The parent, once it has set rpc_pending_. */
  ghost predicate ParentWaits(s: Rpc) {
    || (s.parent.Notifying? && s.parent.n.NotifyWake?)
    || (s.parent.Awaiting? && WaitOk(s.done, s.parent.w, s.child.Announcing? && s.child.n.NotifyWake?))
  }

  /** The child, when it has nothing to serve or has not noticed it yet. */
  ghost predicate ChildWaits(s: Rpc) {
    || (s.child.Announcing? && s.child.n.NotifyWake?)
    || (s.child.Listening? && WaitOk(s.pending, s.child.w, s.parent.Notifying? && s.parent.n.NotifyWake?))
  }

  /** A thread past its first look at the flag has left it Waiter or Notified; if it sleeps on
      Notified, a wake-up is on its way. */
  ghost predicate WaitOk(flag: Flag, w: WaitPc, waking: bool) {
    && !w.Returned?
    && (w.FutexCall? || w.Asleep? || w.Recheck? ==> !flag.NoWaiter?)
    && (w.Asleep? && flag.Notified? ==> waking)
  }

  ghost predicate Quiet(s: Rpc) {
    && !s.pending.Notified? && s.done.NoWaiter? && ChildWaits(s)
    && (s.parent.Idle? || s.parent.PostReq? || s.parent.PostArgs? || s.parent.Reading?
        || (s.parent.Notifying? && Before(s.parent.n, s.pending)))
  }

  ghost predicate Posted(s: Rpc) {
    s.pending.Notified? && !s.done.Notified? && ParentWaits(s) && (ChildWaits(s) || s.child.Clearing?)
  }

  ghost predicate Serving(s: Rpc) {
    && s.pending.NoWaiter? && !s.done.Notified? && ParentWaits(s)
    && (s.child.Asking? || s.child.Blanking? || s.child.Handling? || s.child.Answering? || s.child.Refusing?
        || (s.child.Announcing? && Before(s.child.n, s.done)))
  }

  ghost predicate Answered(s: Rpc) {
    && !s.pending.Notified? && s.done.Notified? && ChildWaits(s)
    && (ParentWaits(s) || s.parent.Resetting?)
  }

  // ---------------------------------------------------------------- the record of calls

  ghost predicate InStep(s: Rpc) {
    && |s.results| <= |s.served| <= |s.issued| <= |s.results| + 1
    && (forall i :: 0 <= i < |s.served| ==> s.served[i].call == s.issued[i])
    && (forall i :: 0 <= i < |s.results| ==> s.results[i] == s.served[i].res)
    && (s.parent.Idle? <==> |s.issued| == |s.results|)
  }

  /** The response slot holds the last response, except while the handler has it. */
  ghost predicate Kept(s: Rpc, first: Response) {
    s.child.Handling? || s.child.Answering? || s.res == LastResponse(s.served, first)
  }

  ghost function LastResponse(served: seq<Service>, first: Response): Response {
    if served == [] then first else served[|served| - 1].res
  }

  /** The code of a refusal is -ENODEV, and its data is what the previous response left. */
  ghost predicate Refused(served: seq<Service>, first: Response) {
    forall i :: 0 <= i < |served| && !served[i].online ==>
      served[i].res == LastResponse(served[..i], first).(code := -ENODEV)
  }

  /** Which of the calls in flight has been served, and what the slots hold. */
  ghost predicate Slots(s: Rpc) {
    && (!s.parent.Idle? ==> |s.issued| > 0 && s.issued[|s.issued| - 1] == s.parent.call)
    && (s.parent.Idle? || s.parent.PostReq? ==> |s.served| == |s.results|)
    && (s.parent.PostArgs? ==> s.req == s.parent.call.req && |s.served| == |s.results|)
    && (s.parent.Notifying? || s.parent.Awaiting? ==> s.req == s.parent.call.req && s.args == s.parent.call.args)
    && (s.parent.Resetting? || s.parent.Reading? ==> |s.served| == |s.issued|)
    && (s.parent.Notifying? && !s.parent.n.NotifyWake? ==> |s.served| == |s.results|)
    && (Posted(s) ==> |s.served| == |s.results|)
    && (Serving(s) ==> |s.served| == |s.results| + if s.child.Announcing? then 1 else 0)
    && (Answered(s) ==> |s.served| == |s.issued|)
    && (s.child.Answering? ==> s.child.call == Call(s.req, s.args))
  }

  ghost predicate RpcInv(s: Rpc) {
    && (Quiet(s) || Posted(s) || Serving(s) || Answered(s))
    && InStep(s) && Slots(s) && Kept(s, Blank) && Refused(s.served, Blank)
  }

  lemma ParentPosts(s: Rpc, luck: Luck)
    requires RpcInv(s) && !s.parent.Notifying? && !s.parent.Awaiting?
    ensures RpcInv(ParentDoes(s, luck))
  {
  }

  lemma ParentNotifies(s: Rpc, luck: Luck)
    requires RpcInv(s) && s.parent.Notifying?
    ensures RpcInv(ParentDoes(s, luck))
  {
  }

  lemma ParentAwaits(s: Rpc, luck: Luck)
    requires RpcInv(s) && s.parent.Awaiting?
    ensures RpcInv(ParentDoes(s, luck))
  {
  }

  lemma ChildListens(s: Rpc, luck: Luck, online: bool, answer: Response)
    requires RpcInv(s) && (s.child.Listening? || s.child.Clearing?)
    ensures RpcInv(ChildDoes(s, luck, online, answer))
  {
  }

  lemma ChildHandles(s: Rpc, luck: Luck, online: bool, answer: Response)
    requires RpcInv(s) && (s.child.Asking? || s.child.Blanking? || s.child.Handling?)
    ensures RpcInv(ChildDoes(s, luck, online, answer))
  {
  }

  lemma ChildServes(s: Rpc, service: Service)
    requires RpcInv(s) && (s.child.Answering? || s.child.Refusing?) && service.call == Call(s.req, s.args)
    requires !service.online ==> s.child.Refusing? && service.res == s.res.(code := -ENODEV)
    ensures RpcInv(Serve(s, service))
  {
    var served := s.served + [service];
    assert forall i :: 0 <= i < |s.served| ==> served[..i] == s.served[..i];
    assert served[..|s.served|] == s.served;
  }

  lemma ChildAnnounces(s: Rpc, luck: Luck, online: bool, answer: Response)
    requires RpcInv(s) && s.child.Announcing?
    ensures RpcInv(ChildDoes(s, luck, online, answer))
  {
  }

  lemma MovedInv(s: Rpc, move: Move)
    requires RpcInv(s)
    ensures RpcInv(Moved(s, move))
  {
    match move
    case Begin(c) =>
    case ParentMoves(luck) =>
      match s.parent {
        case Notifying(_, _) => ParentNotifies(s, luck);
        case Awaiting(_, _) => ParentAwaits(s, luck);
        case _ => ParentPosts(s, luck);
      }
    case ChildMoves(luck, online, answer) =>
      match s.child {
        case Listening(_) => ChildListens(s, luck, online, answer);
        case Clearing => ChildListens(s, luck, online, answer);
        case Answering(c) => ChildServes(s, Service(c, true, answer));
        case Refusing => ChildServes(s, Service(Call(s.req, s.args), false, s.res.(code := -ENODEV)));
        case Announcing(_) => ChildAnnounces(s, luck, online, answer);
        case _ => ChildHandles(s, luck, online, answer);
      }
  }

  lemma {:induction false} AfterInv(req: int, args: int, moves: seq<Move>)
    ensures RpcInv(After(Start(req, args), moves))
    decreases |moves|
  {
    if moves != [] {
      AfterInv(req, args, moves[..|moves| - 1]);
      MovedInv(After(Start(req, args), moves[..|moves| - 1]), moves[|moves| - 1]);
    }
  }

  // ---------------------------------------------------------------- the handshake

  /** The thread's next step reads or writes the request, the arguments or the response. */
  ghost predicate ParentTouches(p: Parent) {
    p.PostReq? || p.PostArgs? || p.Reading?
  }

  ghost predicate ChildTouches(c: Child) {
    c.Blanking? || c.Handling? || c.Answering? || c.Refusing?
  }

  /** In every run of any number of calls: no CHECK in Notify fails in spite of the resets, the
      slots are never touched from both sides, and the two never sleep at the same time. */
  lemma HandshakeSafe(req: int, args: int, moves: seq<Move>)
    ensures var s := After(Start(req, args), moves);
      && (s.parent.Notifying? ==> !CheckFails(s.pending, s.parent.n))
      && (s.child.Announcing? ==> !CheckFails(s.done, s.child.n))
      && !(ParentTouches(s.parent) && ChildTouches(s.child))
      && !(s.parent.Awaiting? && s.parent.w.Asleep? && s.child.Listening? && s.child.w.Asleep?)
  {
    AfterInv(req, args, moves);
  }

  /** In every run, calls are served one by one in the order they were issued, none is served
      twice, and each returns the response of its own service.  The data of a refusal is left
      over from the response before it. */
  lemma OwnResponse(req: int, args: int, moves: seq<Move>)
    ensures var s := After(Start(req, args), moves);
      && |s.results| <= |s.served| <= |s.issued| <= |s.results| + 1
      && (forall i :: 0 <= i < |s.results| ==> s.served[i].call == s.issued[i] && s.results[i] == s.served[i].res)
      && (forall i :: 0 <= i < |s.served| && !s.served[i].online ==>
            s.served[i].res == LastResponse(s.served[..i], Blank).(code := -ENODEV))
  {
    AfterInv(req, args, moves);
  }

  // ---------------------------------------------------------------- progress

  /** The steps a waiter takes before it returns, once the flag is set, or else before it sleeps. */
  function WaitWork(flag: Flag, w: WaitPc): nat {
    if flag.Notified? then (if w.WaitSwap? then 2 else if w.Returned? then 0 else 1)
    else
      match w
      case WaitLoad => if flag.NoWaiter? then 4 else 2
      case WaitSwap => 3
      case FutexCall => 1
      case Asleep => 0
      case Recheck => 2
      case Returned => 0
  }

  /** How far a call has come: posted, noticed, answered, collected. */
  ghost function Stage(s: Rpc): nat {
    if Quiet(s) then (if s.parent.Reading? || s.parent.Idle? then 0 else 4)
    else if Posted(s) then 3
    else if Serving(s) then 2
    else 1
  }

  /** What the parent has left to do in this stage.  A wake-up that it owes may wake the child for
      nothing, which costs two steps. */
  ghost function ParentWork(s: Rpc): nat {
    match s.parent
    case Idle => 0
    case PostReq(_) => 9
    case PostArgs(_) => 8
    case Notifying(_, n) => if n.NotifyWake? then 8 else NotifyRank(s.pending, n)
    case Awaiting(_, w) => WaitWork(s.done, w) + if s.done.Notified? then 2 else 0
    case Resetting(_) => 1
    case Reading(_) => 1
  }

  ghost function ChildWork(s: Rpc): nat {
    match s.child
    case Listening(w) => WaitWork(s.pending, w) + if s.pending.Notified? then 2 else 0
    case Clearing => 1
    case Asking => 11
    case Blanking => 10
    case Handling => 9
    case Answering(_) => 8
    case Refusing => 8
    case Announcing(n) => if n.NotifyWake? then 8 else NotifyRank(s.done, n)
  }

  ghost function Work(s: Rpc): nat {
    50 * Stage(s) + ParentWork(s) + ChildWork(s)
  }

  lemma WorkBound(s: Rpc)
    requires RpcInv(s)
    ensures ParentWork(s) + ChildWork(s) < 50 && Work(s) < 250 && (!s.parent.Idle? ==> Work(s) > 0)
  {
  }

  /** A step that the environment lets succeed. */
  ghost predicate Plain(move: Move) {
    match move
    case Begin(_) => false
    case ParentMoves(luck) => luck.Normal?
    case ChildMoves(luck, _, _) => luck.Normal?
  }

  /** A step within a call: there is less left to do, or the thread is asleep. */
  ghost predicate Progresses(s: Rpc, s': Rpc, asleep: bool) {
    && s'.results == s.results && !s'.parent.Idle?
    && if s' == s then asleep else Work(s') < Work(s)
  }

  lemma PostProgress(s: Rpc)
    requires RpcInv(s) && (s.parent.PostReq? || s.parent.PostArgs? || s.parent.Resetting?)
    ensures Progresses(s, ParentDoes(s, Normal), s.parent.Awaiting? && s.parent.w.Asleep?)
  {
    WorkBound(s);
    MovedInv(s, ParentMoves(Normal));
    WorkBound(ParentDoes(s, Normal));
  }

  lemma NotifyProgress(s: Rpc)
    requires RpcInv(s) && s.parent.Notifying?
    ensures Progresses(s, ParentDoes(s, Normal), s.parent.Awaiting? && s.parent.w.Asleep?)
  {
    WorkBound(s);
    MovedInv(s, ParentMoves(Normal));
    WorkBound(ParentDoes(s, Normal));
  }

  lemma AwaitProgress(s: Rpc)
    requires RpcInv(s) && s.parent.Awaiting?
    ensures Progresses(s, ParentDoes(s, Normal), s.parent.Awaiting? && s.parent.w.Asleep?)
  {
    WorkBound(s);
    MovedInv(s, ParentMoves(Normal));
    WorkBound(ParentDoes(s, Normal));
  }

  lemma ParentProgress(s: Rpc)
    requires RpcInv(s) && !s.parent.Idle? && !s.parent.Reading?
    ensures Progresses(s, ParentDoes(s, Normal), s.parent.Awaiting? && s.parent.w.Asleep?)
  {
    match s.parent
    case Notifying(_, _) => NotifyProgress(s);
    case Awaiting(_, _) => AwaitProgress(s);
    case _ => PostProgress(s);
  }

  lemma ListenProgress(s: Rpc, online: bool, answer: Response)
    requires RpcInv(s) && !s.parent.Idle? && s.child.Listening?
    ensures Progresses(s, ChildDoes(s, Normal, online, answer), s.child.Listening? && s.child.w.Asleep?)
  {
    WorkBound(s);
    MovedInv(s, ChildMoves(Normal, online, answer));
    WorkBound(ChildDoes(s, Normal, online, answer));
  }

  lemma ServingStage(s: Rpc)
    requires Serving(s) && !s.child.Listening? && !s.child.Clearing?
    ensures Stage(s) == 2
  {
  }

  lemma ServingNow(s: Rpc)
    requires RpcInv(s) && !s.child.Listening? && !s.child.Clearing? && (s.child.Announcing? ==> !s.child.n.NotifyWake?)
    ensures Serving(s)
  {
  }

  lemma ClearProgress(s: Rpc, online: bool, answer: Response)
    requires RpcInv(s) && !s.parent.Idle? && s.child.Clearing?
    ensures Progresses(s, ChildDoes(s, Normal, online, answer), false)
  {
    WorkBound(s);
    MovedInv(s, ChildMoves(Normal, online, answer));
    WorkBound(ChildDoes(s, Normal, online, answer));
    ServingNow(ChildDoes(s, Normal, online, answer));
    ServingStage(ChildDoes(s, Normal, online, answer));
    assert Posted(s) && Stage(s) == 3;
  }

  lemma ServeProgress(s: Rpc, online: bool, answer: Response)
    requires Serving(s) && !s.parent.Idle? && !s.child.Listening? && !s.child.Clearing? && !s.child.Announcing?
    ensures Progresses(s, ChildDoes(s, Normal, online, answer), false)
  {
    ServingStage(s);
    ServingStage(ChildDoes(s, Normal, online, answer));
    SameStage(s, ChildDoes(s, Normal, online, answer));
  }

  lemma SameStage(s: Rpc, s': Rpc)
    requires Stage(s) == Stage(s') && s'.results == s.results && s'.parent == s.parent && !s.parent.Idle?
    requires s'.done == s.done && s'.pending == s.pending && ChildWork(s') < ChildWork(s)
    ensures Progresses(s, s', false)
  {
    assert ParentWork(s') == ParentWork(s);
  }

  lemma AnnounceProgress(s: Rpc, online: bool, answer: Response)
    requires RpcInv(s) && !s.parent.Idle? && s.child.Announcing?
    ensures Progresses(s, ChildDoes(s, Normal, online, answer), s.child.Listening? && s.child.w.Asleep?)
  {
    WorkBound(s);
    MovedInv(s, ChildMoves(Normal, online, answer));
    WorkBound(ChildDoes(s, Normal, online, answer));
  }

  lemma ChildProgress(s: Rpc, online: bool, answer: Response)
    requires RpcInv(s) && !s.parent.Idle?
    ensures Progresses(s, ChildDoes(s, Normal, online, answer), s.child.Listening? && s.child.w.Asleep?)
  {
    if s.child.Listening? {
      ListenProgress(s, online, answer);
    } else if s.child.Announcing? {
      AnnounceProgress(s, online, answer);
    } else if s.child.Clearing? {
      ClearProgress(s, online, answer);
    } else {
      ServingNow(s);
      ServeProgress(s, online, answer);
    }
  }

  /** While a call is in flight, one of the two threads can always take a step. */
  lemma NeverStuck(s: Rpc)
    requires RpcInv(s) && !s.parent.Idle?
    ensures ParentDoes(s, Normal) != s || forall online, answer :: ChildDoes(s, Normal, online, answer) != s
  {
    if !s.parent.Reading? {
      ParentProgress(s);
      forall online, answer { ChildProgress(s, online, answer); }
    }
  }

  /** How many of the moves do something. */
  ghost function Busy(s: Rpc, moves: seq<Move>): nat
    decreases |moves|
  {
    if moves == [] then 0
    else
      var s1 := After(s, moves[..|moves| - 1]);
      Busy(s, moves[..|moves| - 1]) + if Moved(s1, moves[|moves| - 1]) != s1 then 1 else 0
  }

  ghost predicate AllPlain(moves: seq<Move>) {
    forall i :: 0 <= i < |moves| ==> Plain(moves[i])
  }

  lemma {:induction false} AfterKeeps(s: Rpc, moves: seq<Move>)
    requires RpcInv(s)
    ensures RpcInv(After(s, moves))
    decreases |moves|
  {
    if moves != [] {
      AfterKeeps(s, moves[..|moves| - 1]);
      MovedInv(After(s, moves[..|moves| - 1]), moves[|moves| - 1]);
    }
  }

  lemma MovedResults(s: Rpc, move: Move)
    ensures |Moved(s, move).results| >= |s.results|
  {
  }

  lemma {:induction false} AfterResults(s: Rpc, moves: seq<Move>)
    ensures |After(s, moves).results| >= |s.results|
    decreases |moves|
  {
    if moves != [] {
      AfterResults(s, moves[..|moves| - 1]);
      MovedResults(After(s, moves[..|moves| - 1]), moves[|moves| - 1]);
    }
  }

  /** Each effective move of either thread uses up work, so that a call in flight returns after at
      most Work(s), hence fewer than 250, of them. */
  lemma {:induction false} CallReturns(s: Rpc, moves: seq<Move>)
    requires RpcInv(s) && !s.parent.Idle? && AllPlain(moves)
    ensures var s' := After(s, moves);
      |s'.results| > |s.results| || (!s'.parent.Idle? && Work(s') + Busy(s, moves) <= Work(s))
    ensures Busy(s, moves) >= 250 || Busy(s, moves) >= Work(s) ==> |After(s, moves).results| > |s.results|
    decreases |moves|
  {
    WorkBound(s);
    if moves != [] {
      var before, move := moves[..|moves| - 1], moves[|moves| - 1];
      CallReturns(s, before);
      AfterKeeps(s, before);
      AfterResults(s, before);
      MovedResults(After(s, before), move);
      assert Plain(move);
      var s1 := After(s, before);
      if |s1.results| == |s.results| {
        MoveProgress(s1, move);
        MovedInv(s1, move);
        WorkBound(Moved(s1, move));
      }
    }
  }

  lemma MoveProgress(s: Rpc, move: Move)
    requires RpcInv(s) && !s.parent.Idle? && Plain(move)
    ensures |Moved(s, move).results| > |s.results| || Progresses(s, Moved(s, move), true)
  {
    match move
    case ParentMoves(_) => if !s.parent.Reading? { ParentProgress(s); }
    case ChildMoves(_, online, answer) => ChildProgress(s, online, answer);
  }

  /** Turn by turn: the parent and the child in alternation. */
  ghost predicate Alternates(moves: seq<Move>) {
    forall i :: 0 <= i < |moves| ==> if i % 2 == 0 then moves[i].ParentMoves? else moves[i].ChildMoves?
  }

  lemma PairBusy(s: Rpc, first: Move, second: Move)
    requires RpcInv(s) && !s.parent.Idle? && Plain(first) && Plain(second) && first.ParentMoves? && second.ChildMoves?
    ensures Moved(s, first) != s || Moved(Moved(s, first), second) != Moved(s, first)
  {
    NeverStuck(s);
  }

  lemma {:induction false} AfterTwo(s: Rpc, two: seq<Move>, first: Move, second: Move)
    ensures var s1 := After(s, two); var s2 := Moved(s1, first);
      && After(s, two + [first] + [second]) == Moved(s2, second)
      && Busy(s, two + [first] + [second])
         == Busy(s, two) + (if s2 != s1 then 1 else 0) + if Moved(s2, second) != s2 then 1 else 0
  {
    assert (two + [first])[..|two|] == two;
    assert (two + [first] + [second])[..|two| + 1] == two + [first];
  }

  /** Of two successive turns of a call in flight, at least one does something. */
  lemma {:induction false} AlternateBusy(s: Rpc, moves: seq<Move>)
    requires RpcInv(s) && !s.parent.Idle? && AllPlain(moves) && Alternates(moves) && |moves| % 2 == 0
    ensures |After(s, moves).results| > |s.results| || 2 * Busy(s, moves) >= |moves|
    decreases |moves|
  {
    if moves != [] {
      var two, first, second := moves[..|moves| - 2], moves[|moves| - 2], moves[|moves| - 1];
      assert moves == two + [first] + [second];
      assert Plain(first) && Plain(second);
      AlternateBusy(s, two);
      TwoMore(s, two, first, second);
    }
  }

  lemma {:induction false} TwoMore(s: Rpc, two: seq<Move>, first: Move, second: Move)
    requires RpcInv(s) && !s.parent.Idle? && AllPlain(two) && Plain(first) && Plain(second)
    requires first.ParentMoves? && second.ChildMoves?
    ensures var moves := two + [first] + [second];
      && |After(s, moves).results| >= |After(s, two).results|
      && (|After(s, two).results| > |s.results| || Busy(s, moves) > Busy(s, two))
  {
    var s1 := After(s, two);
    AfterTwo(s, two, first, second);
    AfterKeeps(s, two);
    AfterResults(s, two);
    MovedResults(s1, first);
    MovedResults(Moved(s1, first), second);
    CallReturns(s, two);
    if |s1.results| == |s.results| { PairBusy(s1, first, second); }
  }

  /** When the threads take turns, a call returns within 250 turns of each. */
  lemma AlternateReturns(s: Rpc, moves: seq<Move>)
    requires RpcInv(s) && !s.parent.Idle? && AllPlain(moves) && Alternates(moves) && |moves| == 500
    ensures |After(s, moves).results| > |s.results|
  {
    AlternateBusy(s, moves);
    CallReturns(s, moves);
  }

  // ---------------------------------------------------------------- what a refusal leaves

  /** Neither thread is inside a call. */
  ghost predicate AtRest(s: Rpc) {
    s.parent == Idle && s.child == Listening(WaitLoad) && s.pending.NoWaiter? && s.done.NoWaiter?
  }

  ghost predicate Reached(moves: seq<Move>, s: Rpc) {
    s == After(Start(0, 0), moves)
  }

  lemma {:induction false} Go(moves: seq<Move>, s: Rpc, move: Move) returns (moves': seq<Move>, s': Rpc)
    requires Reached(moves, s)
    ensures Reached(moves', s') && s' == Moved(s, move)
  {
    moves', s' := moves + [move], Moved(s, move);
    assert moves'[..|moves|] == moves;
  }

  /** The parent's part of a call, up to its wait. */
  lemma {:induction false} Post(moves: seq<Move>, s: Rpc, call: Call) returns (moves': seq<Move>, s': Rpc)
    requires Reached(moves, s) && AtRest(s)
    ensures Reached(moves', s')
    ensures s' == s.(pending := Notified, parent := Awaiting(call, WaitLoad), req := call.req, args := call.args,
                     issued := s.issued + [call])
  {
    moves', s' := Go(moves, s, Begin(call));
    moves', s' := Go(moves', s', ParentMoves(Normal));
    moves', s' := Go(moves', s', ParentMoves(Normal));
    moves', s' := Go(moves', s', ParentMoves(Normal));
    moves', s' := Go(moves', s', ParentMoves(Normal));
    moves', s' := Go(moves', s', ParentMoves(Normal));
  }

  /** The child's part, up to its answer. */
  lemma {:induction false} Respond(moves: seq<Move>, s: Rpc, online: bool, answer: Response) returns (moves': seq<Move>, s': Rpc)
    requires Reached(moves, s) && s.pending.Notified? && s.child == Listening(WaitLoad)
    ensures Reached(moves', s')
    ensures var res := if online then answer else s.res.(code := -ENODEV);
      s' == s.(pending := NoWaiter, child := Announcing(NotifyLoad), res := res,
               served := s.served + [Service(Call(s.req, s.args), online, res)])
  {
    var move := ChildMoves(Normal, online, answer);
    moves', s' := Go(moves, s, move);
    moves', s' := Go(moves', s', move);
    moves', s' := Go(moves', s', move);
    moves', s' := Go(moves', s', move);
    if online {
      moves', s' := Go(moves', s', move);
      moves', s' := Go(moves', s', move);
    }
  }

  /** The hand-over back to the parent. */
  lemma {:induction false} Collect(moves: seq<Move>, s: Rpc) returns (moves': seq<Move>, s': Rpc)
    requires Reached(moves, s) && s.done.NoWaiter? && s.child == Announcing(NotifyLoad)
    requires s.parent.Awaiting? && s.parent.w == WaitLoad
    ensures Reached(moves', s')
    ensures s' == s.(parent := Idle, child := Listening(WaitLoad), results := s.results + [s.res])
  {
    var move := ChildMoves(Normal, true, Blank);
    moves', s' := Go(moves, s, move);
    moves', s' := Go(moves', s', move);
    moves', s' := Go(moves', s', move);
    moves', s' := Go(moves', s', ParentMoves(Normal));
    moves', s' := Go(moves', s', ParentMoves(Normal));
    moves', s' := Go(moves', s', ParentMoves(Normal));
  }

  /** A whole call, with no interference. */
  lemma {:induction false} OneCall(moves: seq<Move>, s: Rpc, call: Call, online: bool, answer: Response)
    returns (moves': seq<Move>, s': Rpc)
    requires Reached(moves, s) && AtRest(s)
    ensures Reached(moves', s') && AtRest(s')
    ensures s'.res == if online then answer else s.res.(code := -ENODEV)
    ensures s'.results == s.results + [s'.res] && s'.served == s.served + [Service(call, online, s'.res)]
  {
    moves', s' := Post(moves, s, call);
    moves', s' := Respond(moves', s', online, answer);
    moves', s' := Collect(moves', s');
  }

  /** "Its own response" does not extend to the data of a refusal: a call made after the enclave
      has gone offline returns -ENODEV with the data of the call before it. */
  lemma StaleData(first: Call, second: Call, answer: Response) returns (moves: seq<Move>)
    ensures var s := After(Start(0, 0), moves);
      s.results == [answer, Response(-ENODEV, answer.data)] && |s.served| == 2 && s.served[1].call == second
  {
    var s;
    moves, s := OneCall([], Start(0, 0), first, true, answer);
    moves, s := OneCall(moves, s, second, false, answer);
  }
}

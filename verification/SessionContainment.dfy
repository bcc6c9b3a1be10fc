/** Over any session, with any faults, the receiver touches nothing outside its download directory, unless a text is
    announced and a link leads it out. */
module SessionContainment {
  import opened WireMessages
  import opened Paths
  import opened Transfers
  import opened Containment
  import opened Session
  import opened SessionInvariant
  import opened SessionTheorems

  ghost predicate WorldContained(cfg: Config, w: World) {
    Contained(w, cfg.disk) && Guarded(w, cfg.disk) && w.transfer.downloadDirectory == cfg.root
  }

  ghost predicate ReceiverContained(cfg: Config, r: Receiver) {
    match r.phase
    case Receiving(w) => WorldContained(cfg, w)
    case AllReceived(w) => WorldContained(cfg, w)
    case Closed(w) => WorldContained(cfg, w)
    case ReceiverFailed(_, disk) => OutsideSame(cfg.root, cfg.disk, disk)
    case _ => true
  }

  /** No text is announced, or no link leads out of the download directory. */
  ghost predicate OfferGuarded(cfg: Config, r: Receiver) {
    r.phase.Consent? ==> r.phase.introduction.texts == [] || NoLinkOut(cfg.root, cfg.disk)
  }

  lemma OutsideIsSame(cfg: Config, r: Receiver)
    requires ReceiverContained(cfg, r)
    ensures OutsideSame(cfg.root, cfg.disk, DiskOf(cfg, r))
  {
    hide Below;
  }

  lemma FailContained(cfg: Config, r: Receiver, error: ReceiveError)
    requires ReceiverContained(cfg, r)
    ensures ReceiverContained(cfg, Fail(cfg, r, error).receiver)
  {
    OutsideIsSame(cfg, r);
    if r.phase.Receiving? {
      CleanupContained(r.phase.world, cfg.disk);
    }
    hide Contained, OutsideSame, CleanupParts;
  }

  lemma ReadsContained(cfg: Config, r: Receiver, m: Message)
    requires ReceiverReady(r) && ReceiverContained(cfg, r)
    ensures ReceiverContained(cfg, ReceiverReads(cfg, r, m).receiver)
  {
    hide Handle, OutsideSame, Contained, Guarded, Fail, ReadSharing, Finished, FromReceiver, OfferOk, Replies;
    var next := r.(read := r.read + Tick(m));
    FailsContained(cfg, next);
    if r.phase.Receiving? && m.Secure? {
      var step := Handle(r.phase.world, m.frame, Env(NoFault, 0, 0));
      HandleContained(r.phase.world, cfg.disk, m.frame, Env(NoFault, 0, 0));
      FailsContained(cfg, next.(phase := Receiving(step.world)));
    } else if !r.phase.Receiving? {
      var read := ReadSharing(cfg.codec, true, r.buffers, m);
      if read.Complete? {
        FailsContained(cfg, next.(buffers := read.buffers));
      }
    }
  }

  lemma FailsContained(cfg: Config, r: Receiver)
    requires ReceiverContained(cfg, r)
    ensures forall error :: ReceiverContained(cfg, Fail(cfg, r, error).receiver)
  {
    forall error
      ensures ReceiverContained(cfg, Fail(cfg, r, error).receiver)
    {
      FailContained(cfg, r, error);
    }
  }

  lemma DecidesContained(cfg: Config, r: Receiver)
    requires r.phase.Consent? && OfferGuarded(cfg, r)
    ensures ReceiverContained(cfg, ReceiverDecides(cfg, r).receiver)
  {
    hide Prepare, Below, Contained, NoLinkOut, FromReceiver, Finished;
    if |cfg.choices| == |r.phase.introduction.files| {
      PrepareContained(r.phase.introduction, cfg.root, cfg.disk, cfg.processId, cfg.choices, r.buffers);
      NoTextsAnnounced(r.phase.introduction, cfg.root, cfg.disk, cfg.processId, cfg.choices);
    }
  }

  lemma StepContained(cfg: Config, st: State, event: Event)
    requires Enabled(cfg, st, event) && ReceiverContained(cfg, st.receiver) && OfferGuarded(cfg, st.receiver)
    ensures ReceiverContained(cfg, Next(cfg, st, event).receiver)
  {
    hide WorldContained, OutsideSame, ReceiverReads, ReceiverDecides, SenderReads, SenderMoves, Fail, Plan, Put;
    match event
    case ReceiverReadStep => ReadsContained(cfg, st.receiver, st.toReceiver.messages[0]);
    case DecideStep => DecidesContained(cfg, st.receiver);
    case ReceiverEof => FailContained(cfg, st.receiver, WireFraming);
    case ReceiverCrash => FailContained(cfg, st.receiver, Io);
    case WaitStep(keepAlive) => WaitsContained(cfg, st, keepAlive);
    case _ =>
  }

  lemma WaitsContained(cfg: Config, st: State, keepAlive: bool)
    requires Enabled(cfg, st, WaitStep(keepAlive))
    ensures ReceiverContained(cfg, Next(cfg, st, WaitStep(keepAlive)).receiver)
  {
    hide Put, Replies, Below, EofAtReceiver;
  }

  /** A proper sender sends files only. */
  lemma ProperOffersNoText(cfg: Config, st: State)
    requires SessionOk(cfg, st)
    ensures OfferGuarded(cfg, st.receiver)
  {
  }

  lemma {:induction false} RunContained(cfg: Config, st: State, events: seq<Event>)
    requires CanRun(cfg, st, events) && ReceiverContained(cfg, st.receiver)
    requires NoLinkOut(cfg.root, cfg.disk) || (Proper(cfg) && SessionOk(cfg, st))
    ensures ReceiverContained(cfg, After(cfg, st, events).receiver)
    decreases |events|
  {
    hide Enabled, Next, ReceiverContained, SessionOk, Proper, NoLinkOut;
    if events != [] {
      if Proper(cfg) && SessionOk(cfg, st) {
        ProperOffersNoText(cfg, st);
        StepKeeps(cfg, st, events[0]);
      }
      StepContained(cfg, st, events[0]);
      RunContained(cfg, Next(cfg, st, events[0]), events[1..]);
    }
  }

  /** In every run of a session, faults included, whatever the files are called and however it ends, the receiver's
      disk outside the download directory is as it was, and everything committed lies inside -- if the sender is a
      proper one, which announces no texts, or, whatever is announced, if no link that stands in the download
      directory leads out of it. */
  lemma SessionStaysInside(cfg: Config, events: seq<Event>)
    requires CanRun(cfg, Initial(), events) && (Proper(cfg) || NoLinkOut(cfg.root, cfg.disk))
    ensures var r := After(cfg, Initial(), events).receiver;
            && OutsideSame(cfg.root, cfg.disk, DiskOf(cfg, r))
            && (r.phase.Closed? ==>
                  forall k :: 0 <= k < |r.phase.world.log| ==>
                    Within(cfg.root, r.phase.world.log[k].path) && Below(cfg.root, r.phase.world.log[k].shown))
  {
    hide OutsideSame, Below, Within, CanRun, After, SessionOk, Proper, NoLinkOut;
    if Proper(cfg) {
      InitialIsOk(cfg);
    }
    RunContained(cfg, Initial(), events);
    OutsideIsSame(cfg, After(cfg, Initial(), events).receiver);
  }
}

/** The invariant of the shootdown: what each CPU, each handler and the request cells satisfy. */
module CpuWire {
  import opened CpuState
  import opened CpuSteps

  ghost predicate AllFresh(tlb: map<Page, Version>, pt: map<Page, Version>) {
    forall p: Page :: Fresh(tlb, pt, p)
  }

  /** A participant caches nothing stale, apart from pages whose invalidation is still owed. */
  ghost predicate Coherent(c: Cpu, w: Wire) {
    c.b.member ==> forall p: Page :: p !in w.dirty ==> Fresh(c.tlb, w.pt, p)
  }

  /** The joining AP flushed under the page-table owner, which it still holds. */
  predicate JoinReady(ap: Ap) {
    || (ap.Entering? && ap.entry.JoinExchange?)
    || (ap.Granted? && ap.grant.GrantMask? && ap.grant.m.stage == JoinMask)
  }

  /** What CPU i owes to the request made on CPU cpu. */
  ghost predicate Answered(c: Cpu, i: nat, cpu: nat, pc: RequestPc, pt: map<Page, Version>) {
    match pc
    case Mapping => true
    case OwnFlush(base, pages, done) => done <= pages && (i == cpu ==> FreshRange(c.tlb, pt, base, done))
    case ReadMembers(base, pages) => i == cpu ==> FreshRange(c.tlb, pt, base, pages)
    case BumpGen(base, pages, target) => Listed(c, i, cpu, base, pages, target, pt)
    case StoreBase(base, pages, target, gen) => Listed(c, i, cpu, base, pages, target, pt)
    case StorePages(base, pages, target, gen) => Listed(c, i, cpu, base, pages, target, pt)
    case StoreTarget(base, pages, target, gen) => Listed(c, i, cpu, base, pages, target, pt)
    case StoreGen(base, pages, target, gen) => Listed(c, i, cpu, base, pages, target, pt)
    case Scan(base, pages, target, gen, at, acked) =>
      && Listed(c, i, cpu, base, pages, target, pt)
      && (c.ack == gen || i in acked ==> FreshRange(c.tlb, pt, base, pages))
    case CheckMembers(base, pages, target, gen, acked) =>
      && Listed(c, i, cpu, base, pages, target, pt)
      && (c.ack == gen || i in acked ==> FreshRange(c.tlb, pt, base, pages))
    case Returned(_, _, _) => true
  }

  /** Every participant is the requester, which flushed, or a target. */
  ghost predicate Listed(c: Cpu, i: nat, cpu: nat, base: nat, pages: nat, target: set<nat>, pt: map<Page, Version>) {
    && (i == cpu ==> FreshRange(c.tlb, pt, base, pages))
    && (c.b.member ==> i == cpu || i in target)
  }

  ghost predicate CpuInv(c: Cpu, i: nat, w: Wire) {
    && c.ack <= w.reqGen
    && Coherent(c, w)
    && (JoinReady(c.ap) ==> AllFresh(c.tlb, w.pt))
    && (w.requester.By? ==> Answered(c, i, w.requester.cpu, w.requester.pc, w.pt))
  }

  /** The request cells are stored before their generation, and stay as stored. */
  predicate Published(w: Wire) {
    && w.reqGen <= w.generation
    && (w.requester.By? ==>
          match w.requester.pc
          case StoreBase(base, pages, target, gen) => gen == w.generation > w.reqGen
          case StorePages(base, pages, target, gen) => gen == w.generation > w.reqGen && w.reqBase == base
          case StoreTarget(base, pages, target, gen) =>
            gen == w.generation > w.reqGen && w.reqBase == base && w.reqPages == pages
          case StoreGen(base, pages, target, gen) =>
            gen == w.generation > w.reqGen && w.reqBase == base && w.reqPages == pages && w.reqTarget == target
          case Scan(base, pages, target, gen, at, acked) => Waiting(w, base, pages, target, gen)
          case CheckMembers(base, pages, target, gen, acked) => Waiting(w, base, pages, target, gen)
          case Returned(base, pages, ok) => ok ==> (forall p :: p in w.dirty ==> !(base <= p < base + pages))
          case _ => true)
  }

  predicate Waiting(w: Wire, base: nat, pages: nat, target: set<nat>, gen: nat) {
    0 < gen == w.reqGen == w.generation && w.reqBase == base && w.reqPages == pages && w.reqTarget == target
  }

  /** The generation a handler works for. */
  function Serves(at: HandlerPc): nat {
    match at
    case LoadGen(_) => 0
    case LoadDiag(gen) => gen
    case LoadAck(gen) => gen
    case LoadTarget(_, gen) => gen
    case LoadBase(_, gen) => gen
    case LoadPages(_, gen, _) => gen
    case Flush(_, gen, _, _, _) => gen
    case LoadDrop(gen) => gen
    case ClearDrop => 0
    case StoreAck(gen) => gen
  }

  /** How far a handler for the pending request has come. */
  ghost predicate Serving(at: HandlerPc, tlb: map<Page, Version>, w: Wire) {
    match at
    case LoadPages(_, _, base) => base == w.reqBase
    case Flush(_, _, base, pages, done) =>
      base == w.reqBase && pages == w.reqPages && done <= pages && FreshRange(tlb, w.pt, base, done)
    case LoadDrop(_) => FreshRange(tlb, w.pt, w.reqBase, w.reqPages)
    case StoreAck(_) => FreshRange(tlb, w.pt, w.reqBase, w.reqPages)
    case _ => true
  }

  /** A request is published and its requester waits for answers. */
  predicate Pending(w: Wire) {
    w.requester.By? && (w.requester.pc.Scan? || w.requester.pc.CheckMembers?)
  }

  ghost predicate HandlerInv(x: Handler, cpus: seq<Cpu>, w: Wire) {
    x.At? ==>
      && x.cpu < |cpus|
      && Serves(x.at) <= w.reqGen
      && (Pending(w) && Serves(x.at) == w.reqGen ==> Serving(x.at, cpus[x.cpu].tlb, w))
  }

  ghost predicate Cpus(cpus: seq<Cpu>, w: Wire) {
    forall i :: 0 <= i < |cpus| ==> CpuInv(cpus[i], i, w)
  }

  ghost predicate Handlers(cpus: seq<Cpu>, w: Wire) {
    forall h :: 0 <= h < |w.handlers| ==> HandlerInv(w.handlers[h], cpus, w)
  }

  // ----- steps that touch one CPU and no request cell

  /** A step on CPU i that only drops translations, leaves the mask or answers with 0. */
  predicate Quieter(c: Cpu, d: Cpu) {
    && (d.tlb == c.tlb || d.tlb == map[])
    && (d.ack == c.ack || d.ack == 0)
    && (d.b.member ==> c.b.member || JoinReady(c.ap))
    && (JoinReady(d.ap) ==> d.tlb == map[] || (JoinReady(c.ap) && d.tlb == c.tlb))
  }

  /** The AP writes neither its epoch nor the records only the controller owns. */
  predicate Untouched(b: Book, d: Book) {
    d.epoch == b.epoch && d.withdrawn == b.withdrawn && d.retired == b.retired
  }

  lemma QuieterKeeps(c: Cpu, d: Cpu, i: nat, w: Wire)
    requires CpuInv(c, i, w) && Quieter(c, d) && (JoinReady(c.ap) ==> w.requester.NoRequest?)
    requires Published(w)
    ensures CpuInv(d, i, w)
  {
  }

  /** Another TLB content or acknowledgement of one CPU leaves the other CPUs alone. */
  lemma OneCpu(cpus: seq<Cpu>, i: nat, d: Cpu, w: Wire)
    requires i < |cpus| && Cpus(cpus, w) && CpuInv(d, i, w)
    ensures Cpus(cpus[i := d], w)
  {
  }

  lemma OneTlb(cpus: seq<Cpu>, i: nat, d: Cpu, w: Wire)
    requires i < |cpus| && Handlers(cpus, w)
    requires forall p: Page :: Fresh(cpus[i].tlb, w.pt, p) ==> Fresh(d.tlb, w.pt, p)
    ensures Handlers(cpus[i := d], w)
  {
    forall h | 0 <= h < |w.handlers| ensures HandlerInv(w.handlers[h], cpus[i := d], w) {
      assert HandlerInv(w.handlers[h], cpus, w);
    }
  }

  /** One instruction of flush_local extends the fresh part of the range. */
  lemma FlushStepFresh(tlb: map<Page, Version>, pt: map<Page, Version>, base: nat, pages: nat, done: nat)
    requires done < pages && FreshRange(tlb, pt, base, done)
    ensures FlushCount(pages, done) <= pages
    ensures FreshRange(FlushStep(tlb, base, pages, done), pt, base, FlushCount(pages, done))
  {
    var next := FlushStep(tlb, base, pages, done);
    forall p | base <= p < base + FlushCount(pages, done) ensures Fresh(next, pt, p) {
      assert pages < FULL_RELOAD && p != base + done ==> Fresh(tlb, pt, p);
    }
  }

  lemma FlushStepKeeps(tlb: map<Page, Version>, pt: map<Page, Version>, base: nat, pages: nat, done: nat)
    ensures forall p: Page :: Fresh(tlb, pt, p) ==> Fresh(FlushStep(tlb, base, pages, done), pt, p)
  {
  }

  /** Dropping translations keeps what CPU i owes. */
  lemma FresherKeeps(c: Cpu, tlb: map<Page, Version>, i: nat, w: Wire)
    requires CpuInv(c, i, w)
    requires forall p: Page :: Fresh(c.tlb, w.pt, p) ==> Fresh(tlb, w.pt, p)
    ensures CpuInv(c.(tlb := tlb), i, w)
  {
  }
}

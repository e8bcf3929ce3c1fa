/** The phases of an agent session, their order, and how two opinions about a phase are reconciled. */
module SessionPhases {
  import opened Text

  datatype Phase = NoPhase | Provisioning | Ready | Running | Stopping | Completed | Failed | Unknown(text: string)
  {
    predicate Terminal() { Completed? || Failed? }
  }

  /** The phase that a lower-case word names, if it names one. */
  function Named(key: string): Option<Phase> {
    if key == "" then Some(NoPhase)
    else if key == "provisioning" then Some(Provisioning)
    else if key == "ready" then Some(Ready)
    else if key == "running" || key == "active" then Some(Running)
    else if key == "stopping" then Some(Stopping)
    else if key == "completed" then Some(Completed)
    else if key == "failed" then Some(Failed)
    else None
  }

  /** NormalizeAgentSessionPhase; a text that names no phase is kept, trimmed. */
  function Normalize(raw: string): Phase {
    var named := Named(Lower(Trim(raw)));
    if named.Some? then named.value else Unknown(Trim(raw))
  }

  /** Which texts name which phase, whatever their case and the blanks around them; no other text names one. */
  lemma NormalizeExactly(raw: string)
    ensures var (p, word) := (Normalize(raw), Normal(raw));
            && (p.NoPhase? <==> word == "")
            && (p.Provisioning? <==> word == "provisioning") && (p.Ready? <==> word == "ready")
            && (p.Running? <==> word in {"running", "active"}) && (p.Stopping? <==> word == "stopping")
            && (p.Completed? <==> word == "completed") && (p.Failed? <==> word == "failed")
            && (p.Unknown? ==> p.text == Trim(raw))
  {
  }

  /** The text under which a phase is stored. */
  function Render(p: Phase): string {
    match p
    case NoPhase => ""
    case Provisioning => "Provisioning"
    case Ready => "Ready"
    case Running => "Running"
    case Stopping => "Stopping"
    case Completed => "Completed"
    case Failed => "Failed"
    case Unknown(text) => text
  }

  /** Storing a phase and reading it back changes nothing, so normalising twice is normalising once. */
  lemma NormalizeRoundTrip(raw: string)
    ensures Normalize(Render(Normalize(raw))) == Normalize(raw)
  {
    var p := Normalize(raw);
    if p.Unknown? {
      TrimTwice(raw);
    } else {
      RenderedIsNamed(p);
    }
  }

  lemma RenderedIsNamed(p: Phase)
    requires !p.Unknown?
    ensures Named(Lower(Trim(Render(p)))) == Some(p)
  {
    if p.NoPhase? || Rank(p) <= 2 {
      EarlyIsNamed(p);
    } else if p.Terminal() {
      TerminalIsNamed(p);
    } else {
      LateIsNamed(p);
    }
  }

  lemma LowerWord(word: string, key: string)
    requires |word| == |key| && forall i :: 0 <= i < |key| ==> 'A' <= word[i] <= 'z' && LowerChar(word[i]) == key[i]
    ensures Lower(Trim(word)) == key
  {
    TrimFixed(word);
    assert Lower(word) == key;
  }

  lemma EarlyIsNamed(p: Phase)
    requires p.NoPhase? || p.Provisioning? || p.Ready?
    ensures Named(Lower(Trim(Render(p)))) == Some(p)
  {
    LowerWord("", "");
    LowerWord("Provisioning", "provisioning");
    LowerWord("Ready", "ready");
  }

  lemma LateIsNamed(p: Phase)
    requires p.Running? || p.Stopping?
    ensures Named(Lower(Trim(Render(p)))) == Some(p)
  {
    LowerWord("Running", "running");
    LowerWord("Stopping", "stopping");
  }

  lemma TerminalIsNamed(p: Phase)
    requires p.Terminal()
    ensures Named(Lower(Trim(Render(p)))) == Some(p)
  {
    if p.Completed? {
      LowerWord("Completed", "completed");
    } else {
      LowerWord("Failed", "failed");
    }
  }

  /** CanTransitionTo, on normalised phases. */
  predicate CanTransition(current: Phase, next: Phase) {
    if next.NoPhase? then false
    else if current == next then true
    else
      match current
      case NoPhase => !next.Unknown?
      case Provisioning => next.Ready? || next.Running? || next.Stopping? || next.Terminal()
      case Ready => next.Running? || next.Stopping? || next.Terminal()
      case Running => next.Stopping? || next.Terminal()
      case Stopping => next.Terminal()
      case _ => false
  }

  /** How far a session has come; an unknown phase is nowhere on the way. */
  function Rank(p: Phase): nat {
    match p
    case NoPhase => 0
    case Provisioning => 1
    case Ready => 2
    case Running => 3
    case Stopping => 4
    case Completed => 5
    case Failed => 5
    case Unknown(_) => 6
  }

  /** The reflexive order that the transitions generate. */
  predicate Reaches(p: Phase, q: Phase) { p == q || CanTransition(p, q) }

  /** The table of transitions is an order: up the ranks, and nowhere from an unknown or terminal phase. */
  lemma TransitionsAreAnOrder(p: Phase, q: Phase, r: Phase)
    ensures CanTransition(p, q) <==> (p == q && !q.NoPhase?) || (!p.Unknown? && !q.Unknown? && Rank(p) < Rank(q))
    ensures Reaches(p, q) && Reaches(q, r) ==> Reaches(p, r)
    ensures Reaches(p, q) && Reaches(q, p) ==> p == q
  {
  }

  /** resolveAgentSessionPhase. */
  function Resolve(current: Phase, candidate: Phase): Phase {
    if candidate.NoPhase? then current
    else if current.NoPhase? then candidate
    else if current == candidate then current
    else if current.Terminal() then current
    else if candidate.Terminal() then candidate
    else if CanTransition(current, candidate) then candidate
    else current
  }

  /** A phase that is not known gives way to a terminal one only, and never takes the place of a phase. */
  lemma ResolveUnknown(p: Phase, q: Phase)
    ensures p.Unknown? ==> Resolve(p, q) == if q.Terminal() then q else p
    ensures q.Unknown? ==> Resolve(p, q) == if p.NoPhase? then q else p
  {
  }

  /**
   Among known phases Resolve is the least upper bound; only between the two terminal phases does the order matter.
   */
  lemma ResolveIsJoin(p: Phase, q: Phase, r: Phase)
    requires !p.Unknown? && !q.Unknown? && !r.Unknown?
    ensures Reaches(p, Resolve(p, q))
    ensures Resolve(p, q) == Resolve(q, p) <==> !(p.Terminal() && q.Terminal() && p != q)
    ensures Resolve(p, q) == Resolve(q, p) ==> (Reaches(p, r) && Reaches(q, r) <==> Reaches(Resolve(p, q), r))
    ensures Resolve(Resolve(p, q), r) == Resolve(p, Resolve(q, r))
  {
  }
}

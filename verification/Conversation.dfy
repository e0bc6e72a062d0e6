/** `BoundedConversationStore` of `cogni_agent/conversation.py`: turns that alternate,
    bounds that hold, and a least-recently-used order of sessions. */
module Conversation {
  import opened Basics

  datatype Role = User | Assistant

  datatype Turn = Turn(sequence: nat, role: Role, text: string)

  datatype Conversation = Conversation(turns: seq<Turn>, totalChars: nat, nextSequence: nat)

  datatype Bounds = Bounds(maxSessions: nat, maxTurns: nat, maxChars: nat, maxMessage: nat)

  /** The range checks of the constructor. */
  predicate ValidBounds(b: Bounds) {
    && 1 <= b.maxSessions <= 128 && 2 <= b.maxTurns <= 128 && 1 <= b.maxMessage <= 32_000
    && 2 * b.maxMessage <= b.maxChars <= 256_000
  }

  const BLANK: Conversation := Conversation([], 0, 1)

  function Chars(turns: seq<Turn>): nat {
    if turns == [] then 0 else |turns[0].text| + Chars(turns[1..])
  }

  predicate Fits(turns: seq<Turn>, b: Bounds) {
    |turns| <= b.maxTurns && Chars(turns) <= b.maxChars
  }

  predicate TextOk(text: string, b: Bounds) {
    && text != "" && |text| <= b.maxMessage
    && forall i :: 0 <= i < |text| ==> text[i] as int >= 32 || text[i] == '\t' || text[i] == '\r' || text[i] == '\n'
  }

  function RoleAt(i: nat): Role {
    if i % 2 == 0 then User else Assistant
  }

  /** User and assistant take turns, the user first. */
  ghost predicate Alternates(turns: seq<Turn>) {
    forall i :: 0 <= i < |turns| ==> turns[i].role == RoleAt(i)
  }

  /** Sequence numbers grow, and stay below the next one. */
  ghost predicate Numbered(turns: seq<Turn>, next: nat) {
    && (forall i :: 0 <= i < |turns| ==> 1 <= turns[i].sequence < next)
    && (forall i, j :: 0 <= i < j < |turns| ==> turns[i].sequence < turns[j].sequence)
  }

  ghost predicate Sane(c: Conversation, b: Bounds) {
    && Alternates(c.turns) && Numbered(c.turns, c.nextSequence) && c.nextSequence >= 1
    && c.totalChars == Chars(c.turns)
    && forall i :: 0 <= i < |c.turns| ==> TextOk(c.turns[i].text, b)
  }

  ghost predicate Kept(c: Conversation, b: Bounds) {
    Sane(c, b) && Fits(c.turns, b)
  }

  predicate Pending(c: Conversation) {
    c.turns != [] && c.turns[|c.turns| - 1].role == User
  }

  /** `rest` is the longest end of the turns that fits and starts with the user. */
  ghost predicate LongestEnd(turns: seq<Turn>, rest: seq<Turn>, b: Bounds) {
    && Fits(rest, b) && (rest != [] ==> rest[0].role == User)
    && |rest| <= |turns| && rest == turns[|turns| - |rest|..]
    && forall k :: 0 <= k < |turns| - |rest| && turns[k].role == User ==> !Fits(turns[k..], b)
  }

  // ------------------------------------------------------------------
  // Turns
  // ------------------------------------------------------------------

  lemma {:induction false} CharsSplit(a: seq<Turn>, b: seq<Turn>)
    ensures Chars(a + b) == Chars(a) + Chars(b)
  {
    if a == [] {
      assert a + b == b;
    } else {
      assert (a + b)[1..] == a[1..] + b;
      CharsSplit(a[1..], b);
    }
  }

  /** A longer end needs more room. */
  lemma EndsShrink(turns: seq<Turn>, k: nat, m: nat)
    requires k <= m <= |turns|
    ensures Chars(turns[m..]) <= Chars(turns[k..])
  {
    assert turns[k..] == turns[k..m] + turns[m..];
    CharsSplit(turns[k..m], turns[m..]);
  }

  lemma OneTurnFits(turns: seq<Turn>, b: Bounds)
    requires ValidBounds(b) && turns != [] && TextOk(turns[|turns| - 1].text, b)
    ensures Fits(turns[|turns| - 1..], b)
  {
    var last := turns[|turns| - 1..];
    assert Chars(last) == |last[0].text| + Chars(last[1..]) && last[1..] == [];
  }

  lemma ExchangeFits(turns: seq<Turn>, b: Bounds)
    requires ValidBounds(b) && |turns| >= 2
    requires TextOk(turns[|turns| - 1].text, b) && TextOk(turns[|turns| - 2].text, b)
    ensures Fits(turns[|turns| - 2..], b)
  {
    var last := turns[|turns| - 2..];
    assert last[1..][1..] == [] && last[1..][0] == turns[|turns| - 1];
    assert Chars(last) == |last[0].text| + (|last[1..][0].text| + Chars(last[1..][1..]));
  }

  /** An end of sane turns that starts with the user is sane. */
  lemma EndIsSane(c: Conversation, rest: Conversation, b: Bounds)
    requires Sane(c, b) && |rest.turns| <= |c.turns| && rest.turns == c.turns[|c.turns| - |rest.turns|..]
    requires rest.nextSequence == c.nextSequence && rest.totalChars == Chars(rest.turns)
    requires rest.turns != [] ==> rest.turns[0].role == User
    ensures Sane(rest, b)
  {
    var cut := |c.turns| - |rest.turns|;
    EndIsNumbered(c.turns, cut, c.nextSequence);
    assert forall i :: 0 <= i < |rest.turns| ==> rest.turns[i] == c.turns[cut + i];
    hide TextOk;
    hide Numbered;
    hide Chars;
    hide RoleAt;
    forall i | 0 <= i < |rest.turns| ensures rest.turns[i].role == RoleAt(i) {
      assert c.turns[cut].role == RoleAt(cut) && c.turns[cut + i].role == RoleAt(cut + i);
      RoleAfter(cut, i);
    }
  }

  /** Behind an even number of turns the roles start again. */
  lemma RoleAfter(cut: nat, i: nat)
    requires RoleAt(cut) == User
    ensures RoleAt(cut + i) == RoleAt(i)
  {
  }

  /** Behind a reply without its question comes a question, or nothing. */
  lemma OrphanGoes(c: Conversation, k: nat, b: Bounds)
    requires Sane(c, b) && k < |c.turns| && c.turns[k].role == Assistant && Fits(c.turns[k..], b)
    ensures Fits(c.turns[k + 1..], b) && (k + 1 < |c.turns| ==> c.turns[k + 1].role == User)
    ensures Chars(c.turns[k..]) == |c.turns[k].text| + Chars(c.turns[k + 1..])
  {
    EndsShrink(c.turns, k, k + 1);
    assert c.turns[k..][1..] == c.turns[k + 1..];
    assert c.turns[k].role == RoleAt(k);
    if k + 1 < |c.turns| { assert c.turns[k + 1].role == RoleAt(k + 1); }
    hide TextOk;
    hide Numbered;
  }

  lemma EndIsNumbered(turns: seq<Turn>, cut: nat, next: nat)
    requires Numbered(turns, next) && cut <= |turns|
    ensures Numbered(turns[cut..], next)
  {
  }

  lemma AppendIsSane(c: Conversation, t: Turn, b: Bounds)
    requires Sane(c, b) && t.sequence == c.nextSequence && t.role == RoleAt(|c.turns|) && TextOk(t.text, b)
    ensures Sane(Conversation(c.turns + [t], c.totalChars + |t.text|, c.nextSequence + 1), b)
  {
    CharsSplit(c.turns, [t]);
    assert Chars([t]) == |t.text| + Chars([t][1..]) && [t][1..] == [];
  }

  /** The last user turn and its answer survive trimming. */
  lemma LongestKeepsExchange(turns: seq<Turn>, rest: seq<Turn>, b: Bounds)
    requires ValidBounds(b) && LongestEnd(turns, rest, b)
    ensures turns != [] && turns[|turns| - 1].role == User && TextOk(turns[|turns| - 1].text, b) ==> rest != []
    ensures |turns| >= 2 && turns[|turns| - 2].role == User && TextOk(turns[|turns| - 1].text, b) && TextOk(turns[|turns| - 2].text, b) ==> |rest| >= 2
  {
    if turns != [] && turns[|turns| - 1].role == User && TextOk(turns[|turns| - 1].text, b) {
      OneTurnFits(turns, b);
    }
    if |turns| >= 2 && turns[|turns| - 2].role == User && TextOk(turns[|turns| - 1].text, b) && TextOk(turns[|turns| - 2].text, b) {
      ExchangeFits(turns, b);
    }
  }

  // ------------------------------------------------------------------
  // The order of use
  // ------------------------------------------------------------------

  function Without(order: seq<string>, id: string): seq<string> {
    if order == [] then []
    else if order[0] == id then Without(order[1..], id)
    else [order[0]] + Without(order[1..], id)
  }

  /** `move_to_end`, or an insertion at the end. */
  function Touched(order: seq<string>, id: string): seq<string> {
    Without(order, id) + [id]
  }

  lemma {:induction false} WithoutRemoves(order: seq<string>, id: string)
    requires Distinct(order)
    ensures Distinct(Without(order, id))
    ensures forall x :: x in Without(order, id) <==> x in order && x != id
    ensures |Without(order, id)| == if id in order then |order| - 1 else |order|
  {
    if order != [] {
      assert order == [order[0]] + order[1..];
      assert order[0] !in order[1..];
      WithoutRemoves(order[1..], id);
    }
  }

  lemma TouchedHolds(order: seq<string>, id: string)
    requires Distinct(order)
    ensures Distinct(Touched(order, id))
    ensures forall x :: x in Touched(order, id) <==> x in order || x == id
    ensures |Touched(order, id)| == if id in order then |order| else |order| + 1
  {
    WithoutRemoves(order, id);
  }

  lemma FrontDropped(order: seq<string>)
    requires Distinct(order) && order != []
    ensures Distinct(order[1..]) && forall x :: x in order[1..] <==> x in order && x != order[0]
  {
    assert order == [order[0]] + order[1..];
  }

  // ------------------------------------------------------------------
  // The store
  // ------------------------------------------------------------------

  datatype Begun = Opened(sequence: nat) | StillPending | InvalidTurn

  datatype Committed = Answered(turn: Turn) | NotOwner | NoSession | InvalidReply

  class BoundedConversationStore {
    const bounds: Bounds
    var sessions: map<string, Conversation>
    /** From the least to the most recently used. */
    var order: seq<string>

    ghost predicate Valid()
      reads this
    {
      && ValidBounds(bounds) && Distinct(order) && |order| <= bounds.maxSessions
      && (forall id :: id in order <==> id in sessions)
      && forall id :: id in sessions ==> Kept(sessions[id], bounds)
    }

    constructor (bounds: Bounds)
      requires ValidBounds(bounds)
      ensures Valid() && this.bounds == bounds && sessions == map[] && order == []
    {
      this.bounds, sessions, order := bounds, map[], [];
    }

    /** `_trim`: drop from the front until the bounds hold, then an orphaned reply. */
    method Trim(c: Conversation) returns (rest: Conversation)
      requires ValidBounds(bounds) && Sane(c, bounds)
      ensures Kept(rest, bounds) && rest.nextSequence == c.nextSequence
      ensures LongestEnd(c.turns, rest.turns, bounds)
    {
      assert c.totalChars == Chars(c.turns);
      hide Sane;
      hide Fits;
      var k;
      rest, k := TrimToFit(c);
      if rest.turns != [] && rest.turns[0].role == Assistant {
        OrphanGoes(c, k, bounds);
        assert rest.turns[1..] == c.turns[k + 1..];
        rest := rest.(turns := rest.turns[1..], totalChars := rest.totalChars - |rest.turns[0].text|);
      }
      EndIsSane(c, rest, bounds);
    }

    /** The first part of it; `k` turns go. */
    method TrimToFit(c: Conversation) returns (rest: Conversation, k: nat)
      requires ValidBounds(bounds) && c.totalChars == Chars(c.turns)
      ensures k <= |c.turns| && rest.turns == c.turns[k..] && rest.totalChars == Chars(rest.turns)
      ensures rest.nextSequence == c.nextSequence && Fits(rest.turns, bounds)
      ensures forall j :: 0 <= j < k ==> !Fits(c.turns[j..], bounds)
    {
      rest, k := c, 0;
      while |rest.turns| > bounds.maxTurns || rest.totalChars > bounds.maxChars
        invariant k <= |c.turns| && rest.turns == c.turns[k..] && rest.totalChars == Chars(rest.turns)
        invariant rest.nextSequence == c.nextSequence
        invariant forall j :: 0 <= j < k ==> !Fits(c.turns[j..], bounds)
        decreases |c.turns| - k
      {
        assert !Fits(c.turns[k..], bounds);
        assert rest.turns != [] && rest.turns[1..] == c.turns[k + 1..];
        rest := rest.(turns := rest.turns[1..], totalChars := rest.totalChars - |rest.turns[0].text|);
        k := k + 1;
      }
    }

    /** A session takes a new value and becomes the most recent one. */
    method Store(id: string, c: Conversation)
      requires Valid() && Kept(c, bounds) && (id in sessions || |order| < bounds.maxSessions)
      modifies this
      ensures Valid() && sessions == old(sessions)[id := c] && order == Touched(old(order), id)
    {
      TouchedHolds(order, id);
      hide Kept;
      hide Distinct;
      hide Touched;
      sessions, order := sessions[id := c], Touched(order, id);
    }

    /** `_get_or_create`: a new session may push out the least recently used one. */
    method GetOrCreate(id: string) returns (c: Conversation)
      requires Valid()
      modifies this
      ensures Valid() && id in sessions && sessions[id] == c
      ensures c == if id in old(sessions) then old(sessions)[id] else BLANK
      ensures id in old(sessions) ==> sessions == old(sessions)
      ensures order == Touched(if id !in old(sessions) && |old(order)| >= bounds.maxSessions then old(order)[1..] else old(order), id)
      ensures forall x :: x in sessions && x != id ==> x in old(sessions) && sessions[x] == old(sessions)[x]
    {
      assert Kept(BLANK, bounds);
      hide Distinct;
      hide Kept;
      hide Touched;
      if id in sessions {
        c := sessions[id];
      } else {
        if |order| >= bounds.maxSessions { DropOldest(); }
        c := BLANK;
      }
      Store(id, c);
    }

    /** The least recently used session goes. */
    method DropOldest()
      requires Valid() && order != []
      modifies this
      ensures Valid() && sessions == old(sessions) - {old(order)[0]} && order == old(order)[1..]
    {
      FrontDropped(order);
      hide Distinct;
      hide Kept;
      sessions, order := sessions - {order[0]}, order[1..];
    }

    /** `_append`, then `_trim`. */
    method AppendAndTrim(c: Conversation, turn: Turn) returns (rest: Conversation)
      requires ValidBounds(bounds) && Kept(c, bounds) && TextOk(turn.text, bounds)
      requires turn.sequence == c.nextSequence && turn.role == if Pending(c) then Assistant else User
      ensures Kept(rest, bounds) && rest.nextSequence == c.nextSequence + 1
      ensures LongestEnd(c.turns + [turn], rest.turns, bounds)
      ensures rest.turns != [] && rest.turns[|rest.turns| - 1] == turn
      ensures Pending(c) ==> |rest.turns| >= 2 && rest.turns[|rest.turns| - 2] == c.turns[|c.turns| - 1]
    {
      if c.turns != [] { assert c.turns[|c.turns| - 1].role == RoleAt(|c.turns| - 1); }
      AppendIsSane(c, turn, bounds);
      var more := Conversation(c.turns + [turn], c.totalChars + |turn.text|, c.nextSequence + 1);
      if Pending(c) { assert more.turns[|more.turns| - 2] == c.turns[|c.turns| - 1]; }
      hide Sane;
      hide Fits;
      rest := Trim(more);
      LongestKeepsExchange(more.turns, rest.turns, bounds);
    }

    /** `begin_user_turn`: the new turn stays pending; it is never trimmed itself. */
    method BeginUserTurn(id: string, text: string) returns (result: Begun)
      requires Valid()
      modifies this
      ensures Valid()
      ensures result.InvalidTurn? <==> !TextOk(text, bounds)
      ensures result.InvalidTurn? ==> sessions == old(sessions) && order == old(order)
      ensures result.StillPending? <==> TextOk(text, bounds) && id in old(sessions) && Pending(old(sessions)[id])
      ensures result.StillPending? ==> sessions == old(sessions)
      ensures result.Opened? ==>
        var before := if id in old(sessions) then old(sessions)[id] else BLANK;
        && id in sessions && result.sequence == before.nextSequence
        && sessions[id].nextSequence == before.nextSequence + 1
        && LongestEnd(before.turns + [Turn(result.sequence, User, text)], sessions[id].turns, bounds)
      ensures result.Opened? ==> Pending(sessions[id]) && sessions[id].turns[|sessions[id].turns| - 1] == Turn(result.sequence, User, text)
      ensures forall x :: x in sessions && x != id ==> x in old(sessions) && sessions[x] == old(sessions)[x]
      ensures !result.InvalidTurn? ==> order != [] && order[|order| - 1] == id
    {
      hide TextOk;
      hide Kept;
      hide LongestEnd;
      hide Distinct;
      hide Without;
      if !TextOk(text, bounds) { return InvalidTurn; }
      var c := GetOrCreate(id);
      if Pending(c) { return StillPending; }
      var turn := Turn(c.nextSequence, User, text);
      var rest := AppendAndTrim(c, turn);
      sessions := sessions[id := rest];
      result := Opened(turn.sequence);
    }

    /** `commit_assistant_turn`: only the owner of the pending turn may answer it, and
        the exchange is never trimmed. */
    method CommitAssistantTurn(id: string, expected: int, text: string) returns (result: Committed)
      requires Valid()
      modifies this
      ensures Valid() && order == old(order)
      ensures result.InvalidReply? <==> !TextOk(text, bounds) || expected < 1
      ensures result.NoSession? <==> TextOk(text, bounds) && expected >= 1 && id !in old(sessions)
      ensures result.Answered? <==> TextOk(text, bounds) && expected >= 1 && id in old(sessions) && Owns(old(sessions)[id], expected)
      ensures !result.Answered? ==> sessions == old(sessions)
      ensures result.Answered? ==>
        var before := old(sessions)[id];
        && result.turn == Turn(before.nextSequence, Assistant, text) && id in sessions
        && sessions[id].nextSequence == before.nextSequence + 1
        && LongestEnd(before.turns + [result.turn], sessions[id].turns, bounds)
        && |sessions[id].turns| >= 2 && sessions[id].turns[|sessions[id].turns| - 1] == result.turn
        && sessions[id].turns[|sessions[id].turns| - 2] == before.turns[|before.turns| - 1]
      ensures forall x :: x != id ==> (x in sessions <==> x in old(sessions)) && (x in sessions ==> sessions[x] == old(sessions)[x])
    {
      hide TextOk;
      hide Kept;
      hide LongestEnd;
      hide Distinct;
      if !TextOk(text, bounds) || expected < 1 { return InvalidReply; }
      if id !in sessions { return NoSession; }
      var c := sessions[id];
      if c.turns == [] { return NotOwner; }
      var pending := c.turns[|c.turns| - 1];
      if pending.role != User || pending.sequence != expected { return NotOwner; }
      var turn := Turn(c.nextSequence, Assistant, text);
      var rest := AppendAndTrim(c, turn);
      sessions := sessions[id := rest];
      result := Answered(turn);
    }

    /** `abort_user_turn`: removes the pending turn of its owner, and nothing else. */
    method AbortUserTurn(id: string, expected: int) returns (ok: bool)
      requires Valid()
      modifies this
      ensures Valid()
      ensures ok <==> id in old(sessions) && expected >= 0 && Owns(old(sessions)[id], expected)
      ensures !ok ==> sessions == old(sessions) && order == old(order)
      ensures ok ==> id in sessions && sessions[id].turns == old(sessions)[id].turns[..|old(sessions)[id].turns| - 1]
      ensures ok ==> sessions[id].nextSequence == old(sessions)[id].nextSequence && order == Touched(old(order), id)
      ensures forall x :: x != id ==> (x in sessions <==> x in old(sessions)) && (x in sessions ==> sessions[x] == old(sessions)[x])
    {
      if id !in sessions { return false; }
      var c := sessions[id];
      if c.turns == [] { return false; }
      var pending := c.turns[|c.turns| - 1];
      if pending.role != User || pending.sequence != expected { return false; }
      FrontIsKept(c, bounds);
      hide Kept;
      hide Distinct;
      hide Touched;
      Store(id, Front(c));
      ok := true;
    }

    /** `clear`. */
    method Clear(id: string) returns (existed: bool)
      requires Valid()
      modifies this
      ensures Valid() && existed == (id in old(sessions))
      ensures sessions == old(sessions) - {id} && order == Without(old(order), id)
    {
      WithoutRemoves(order, id);
      existed := id in sessions;
      sessions := sessions - {id};
      order := Without(order, id);
    }
  }

  /** The conversation without its last turn. */
  function Front(c: Conversation): Conversation
    requires c.turns != [] && c.totalChars >= |c.turns[|c.turns| - 1].text|
  {
    c.(turns := c.turns[..|c.turns| - 1], totalChars := c.totalChars - |c.turns[|c.turns| - 1].text|)
  }

  lemma FrontIsKept(c: Conversation, b: Bounds)
    requires Kept(c, b) && c.turns != []
    ensures c.totalChars >= |c.turns[|c.turns| - 1].text| && Kept(Front(c), b)
  {
    var n := |c.turns| - 1;
    assert c.turns == c.turns[..n] + [c.turns[n]];
    CharsSplit(c.turns[..n], [c.turns[n]]);
    assert Chars([c.turns[n]]) == |c.turns[n].text| by { assert [c.turns[n]][1..] == []; }
  }

  /** The pending turn carries this number. */
  predicate Owns(c: Conversation, expected: nat) {
    Pending(c) && c.turns[|c.turns| - 1].sequence == expected
  }

  /** A user turn that is begun and then aborted leaves the turns as they were exactly
      when nothing had to be trimmed for it. */
  lemma AbortUndoesBegin(before: Conversation, text: string, during: seq<Turn>, b: Bounds)
    requires ValidBounds(b) && Kept(before, b) && !Pending(before) && TextOk(text, b)
    requires LongestEnd(before.turns + [Turn(before.nextSequence, User, text)], during, b)
    ensures during != []
    ensures during[..|during| - 1] == before.turns <==>
      |before.turns| + 1 <= b.maxTurns && before.totalChars + |text| <= b.maxChars
  {
    var turn := Turn(before.nextSequence, User, text);
    var more := before.turns + [turn];
    LongestKeepsExchange(more, during, b);
    CharsSplit(before.turns, [turn]);
    assert Chars([turn]) == |text| by { assert [turn][1..] == []; }
    assert Fits(more, b) <==> |before.turns| + 1 <= b.maxTurns && before.totalChars + |text| <= b.maxChars;
    assert more[0..] == more;
    if Fits(more, b) {
      assert more[0].role == User by { if before.turns != [] { assert before.turns[0].role == RoleAt(0); } }
      assert |during| == |more|;
    } else if |during| == |more| {
      assert false;
    }
    if |during| == |more| {
      assert during == more && during[..|during| - 1] == before.turns;
    }
  }
}

/** The chat transcript of app/main.py (`st.session_state.messages`): its
    records, the shape a session's transcript always has, the sidebar
    statistics and the message list sent to the backend. */
module Transcript {

  const UserRole := "user"
  const AssistantRole := "assistant"

  /** One `{"role": ..., "content": ...}` record of the transcript. */
  datatype Message = Message(role: string, content: string)

  /** The three counters of the sidebar's statistics panel. */
  datatype Stats = Stats(total: nat, users: nat, assistants: nat)

  /** Every message has the role "user" or "assistant". */
  predicate RolesKnown(ms: seq<Message>)
  {
    forall i :: 0 <= i < |ms| ==> ms[i].role == UserRole || ms[i].role == AssistantRole
  }

  /** The shape every transcript of a session keeps: known roles, and each
      assistant message directly follows a user message. */
  predicate WellFormed(ms: seq<Message>)
  {
    RolesKnown(ms) &&
    forall i :: 0 <= i < |ms| && ms[i].role == AssistantRole ==> 0 < i && ms[i - 1].role == UserRole
  }

  /** The number of messages with the given role, as the list comprehension
      `len([m for m in messages if m["role"] == role])` counts them. */
  function CountRole(ms: seq<Message>, role: string): (n: nat)
    ensures n <= |ms|
  {
    if ms == [] then 0
    else CountRole(ms[..|ms| - 1], role) + (if ms[|ms| - 1].role == role then 1 else 0)
  }

  /** A role counts nothing exactly when no message has it, and counts every
      message exactly when all have it. */
  lemma {:induction false} CountRoleExtremes(ms: seq<Message>, role: string)
    ensures CountRole(ms, role) == 0 <==> forall i :: 0 <= i < |ms| ==> ms[i].role != role
    ensures CountRole(ms, role) == |ms| <==> forall i :: 0 <= i < |ms| ==> ms[i].role == role
    decreases |ms|
  {
    if ms != [] {
      var init := ms[..|ms| - 1];
      assert forall i :: 0 <= i < |init| ==> init[i] == ms[i];
      CountRoleExtremes(init, role);
    }
  }

  /** Appending one message raises the count of its own role by one and
      leaves every other count alone. */
  lemma CountRoleAppend(ms: seq<Message>, m: Message, role: string)
    ensures CountRole(ms + [m], role) == CountRole(ms, role) + (if m.role == role then 1 else 0)
  {
    assert (ms + [m])[..|ms|] == ms;
  }

  /** Two different roles never count more messages than there are, and
      exactly as many when every message has one of the two. */
  lemma {:induction false} CountsPartition(ms: seq<Message>, a: string, b: string)
    requires a != b
    ensures CountRole(ms, a) + CountRole(ms, b) <= |ms|
    ensures (forall i :: 0 <= i < |ms| ==> ms[i].role == a || ms[i].role == b) ==>
              CountRole(ms, a) + CountRole(ms, b) == |ms|
  {
    if ms != [] {
      var init := ms[..|ms| - 1];
      assert forall i :: 0 <= i < |init| ==> init[i] == ms[i];
      CountsPartition(init, a, b);
    }
  }

  /** The sidebar statistics: total, user and assistant message counts. */
  function Statistics(ms: seq<Message>): (s: Stats)
    ensures s.total == |ms|
    ensures s.users + s.assistants <= s.total
    ensures RolesKnown(ms) ==> s.users + s.assistants == s.total
  {
    CountsPartition(ms, UserRole, AssistantRole);
    Stats(|ms|, CountRole(ms, UserRole), CountRole(ms, AssistantRole))
  }

  /** Every prefix of a well-formed transcript is well formed: the history
      before any point of the conversation had the same shape. */
  lemma WellFormedPrefix(ms: seq<Message>, k: nat)
    requires WellFormed(ms) && k <= |ms|
    ensures WellFormed(ms[..k])
  {
    assert forall i :: 0 <= i < k ==> ms[..k][i] == ms[i];
  }

  /** In a well-formed transcript every assistant message is paid for by the
      user message right before it, so assistants never outnumber users. */
  lemma {:induction false} AssistantsNeverOutnumberUsers(ms: seq<Message>)
    requires WellFormed(ms)
    ensures CountRole(ms, AssistantRole) <= CountRole(ms, UserRole)
    decreases |ms|
  {
    if ms != [] {
      var n := |ms|;
      var init := ms[..n - 1];
      if ms[n - 1].role == AssistantRole {
        var before := ms[..n - 2];
        assert ms[n - 2].role == UserRole;
        assert init[..n - 2] == before && init[n - 2] == ms[n - 2];
        WellFormedPrefix(ms, n - 2);
        AssistantsNeverOutnumberUsers(before);
      } else {
        WellFormedPrefix(ms, n - 1);
        AssistantsNeverOutnumberUsers(init);
      }
    }
  }

  /** The statistics after a turn: an answered turn adds one user and one
      assistant message, an unanswered one adds just the user message. */
  lemma TurnStatistics(ms: seq<Message>, prompt: string, text: string)
    ensures var s, u := Statistics(ms), ms + [Message(UserRole, prompt)];
      Statistics(u) == Stats(s.total + 1, s.users + 1, s.assistants) &&
      Statistics(u + [Message(AssistantRole, text)]) == Stats(s.total + 2, s.users + 1, s.assistants + 1)
  {
    var u := ms + [Message(UserRole, prompt)];
    CountRoleAppend(ms, Message(UserRole, prompt), UserRole);
    CountRoleAppend(ms, Message(UserRole, prompt), AssistantRole);
    CountRoleAppend(u, Message(AssistantRole, text), UserRole);
    CountRoleAppend(u, Message(AssistantRole, text), AssistantRole);
  }

  /** The list comprehension that builds the request's `messages`: a fresh
      `{"role", "content"}` record per transcript message. It is exactly the
      transcript, same length, same order, same records. */
  function ApiMessages(ms: seq<Message>): (r: seq<Message>)
    ensures r == ms
  {
    seq(|ms|, i requires 0 <= i < |ms| => Message(ms[i].role, ms[i].content))
  }

  /** Appending a user message keeps a transcript well formed. */
  lemma AppendUserKeepsWellFormed(ms: seq<Message>, text: string)
    requires WellFormed(ms)
    ensures WellFormed(ms + [Message(UserRole, text)])
  {
    var ms' := ms + [Message(UserRole, text)];
    assert forall i :: 0 <= i < |ms| ==> ms'[i] == ms[i];
  }

  /** Appending an assistant message right after a user message keeps a
      transcript well formed. */
  lemma AppendReplyKeepsWellFormed(ms: seq<Message>, text: string)
    requires WellFormed(ms) && ms != [] && ms[|ms| - 1].role == UserRole
    ensures WellFormed(ms + [Message(AssistantRole, text)])
  {
    var ms' := ms + [Message(AssistantRole, text)];
    assert forall i :: 0 <= i < |ms| ==> ms'[i] == ms[i];
  }
}

/**
  The decision rules of the helpdesk's pages: sign-up and log-in checks, the
  chat answer chain and the per-user transcripts, complaint validation, the
  admin's status update, the active-complaints list and page routing. The
  session is an immutable record; every button press is a function from the
  session before to the session after. Rendering is not modelled.
*/
module App {
  import opened Wrappers
  import opened Values
  import opened Strings
  import KbManager
  import LlmHandler

  const StudentDomain: string := "@pvpsit.ac.in"
  const AdminDomain: string := "@pvpsiddhartha.ac.in"

  /** A knowledge-base answer containing this is treated as "no answer". */
  const StillLearningMarker: string := "I'm still learning"

  /** The chat's answer when the knowledge-base search fails and yields nothing. */
  const CouldNotFind: string := "Sorry, I could not find an answer."

  const Read: string := "read"
  const Resolved: string := "resolved"

  datatype Role = Student | Admin

  /** `st.session_state.page` */
  datatype Page = Home | UserLogin | AdminLogin | StudentPage | AdminPage

  /** The `role` of a chat message: `"user"` or `"assistant"`. */
  datatype Speaker = User | Assistant

  datatype Message = Message(speaker: Speaker, content: Value)

  /** `st.session_state`: the page, the login, and one transcript per username. */
  datatype Session = Session(
    page: Page,
    loggedIn: bool,
    role: Option<Role>,
    username: Option<string>,
    messages: map<string, seq<Message>>)

  /** A row of the `users` table as `get_user` returns it. */
  datatype UserRecord = UserRecord(username: string, email: string, passwordHash: string, role: Role)

  /** A row of the `complaints` table: `(id, student_name, issue_type, description, status, admin_response)`. */
  datatype Complaint = Complaint(
    id: int,
    studentName: string,
    issueType: string,
    description: string,
    status: string,
    adminResponse: string)

  /** What the page shows. */
  datatype View = Homepage | StudentLoginView | AdminLoginView | StudentView | AdminView | Nothing

  /** The session defaults set when `logged_in` and `messages` are missing. */
  function Initial(): Session {
    Session(Home, false, None, None, map[])
  }

  function Domain(r: Role): string {
    match r
    case Student => StudentDomain
    case Admin => AdminDomain
  }

  function LoginPage(r: Role): Page {
    match r
    case Student => UserLogin
    case Admin => AdminLogin
  }

  function Dashboard(r: Role): Page {
    match r
    case Student => StudentPage
    case Admin => AdminPage
  }

  function DashboardView(r: Role): View {
    match r
    case Student => StudentView
    case Admin => AdminView
  }

  function LoginView(r: Role): View {
    match r
    case Student => StudentLoginView
    case Admin => AdminLoginView
  }

  /**
    The sessions the pages can produce: logged in exactly when a role and a
    username are set, and then on that role's dashboard; logged out on the
    homepage or a login page.
  */
  predicate Valid(s: Session) {
    if s.loggedIn then
      s.role.Some? && s.username.Some? && s.page == Dashboard(s.role.value)
    else
      s.role.None? && s.username.None? && (s.page == Home || s.page == UserLogin || s.page == AdminLogin)
  }

  // ---------------------------------------------------------------- routing

  /**
    The main navigation block. The homepage wins whenever the page is `home`,
    and nobody logged out is ever shown a dashboard.
  */
  function Route(s: Session): (v: View)
    ensures s.page == Home ==> v == Homepage
    ensures !s.loggedIn ==> v == Homepage || v == StudentLoginView || v == AdminLoginView
  {
    if s.page == Home then Homepage
    else if !s.loggedIn then
      if s.page == UserLogin then StudentLoginView
      else if s.page == AdminLogin then AdminLoginView
      else Homepage
    else
      match s.role
      case Some(Student) => StudentView
      case Some(Admin) => AdminView
      case None => Nothing
  }

  /**
    In a valid session a logged-in user always sees their role's dashboard and
    a logged-out user the page they chose, so no session shows nothing.
  */
  lemma RouteOfValid(s: Session)
    requires Valid(s)
    ensures s.loggedIn ==> Route(s) == DashboardView(s.role.value)
    ensures !s.loggedIn && s.page == UserLogin ==> Route(s) == StudentLoginView
    ensures !s.loggedIn && s.page == AdminLogin ==> Route(s) == AdminLoginView
    ensures !s.loggedIn && s.page == Home ==> Route(s) == Homepage
    ensures Route(s) != Nothing
  {
  }

  /** The back button is shown to a logged-out user away from the homepage. */
  predicate ShowsBackButton(s: Session) {
    !s.loggedIn && s.page != Home
  }

  // ---------------------------------------------------------------- sign-up and log-in

  datatype SignupOutcome = InvalidDomain | Created | AlreadyExists

  /**
    The sign-up forms: the e-mail must end with the portal's college domain;
    only then is the account registered, which fails when the username or
    e-mail is taken (`registered` is what `register_user` reports).
  */
  function Signup(portal: Role, email: string, registered: bool): (o: SignupOutcome)
    ensures o == InvalidDomain <==> !EndsWith(email, Domain(portal))
    ensures o == Created <==> EndsWith(email, Domain(portal)) && registered
  {
    if !EndsWith(email, Domain(portal)) then InvalidDomain
    else if registered then Created
    else AlreadyExists
  }

  /** An e-mail passes a portal's domain check exactly when it is some local part followed by that domain. */
  lemma DomainCheckIffLocalPart(portal: Role, email: string)
    ensures EndsWith(email, Domain(portal)) <==>
            exists local :: local + Domain(portal) == email
  {
    var d := Domain(portal);
    if EndsWith(email, d) {
      assert email[..|email| - |d|] + d == email;
    }
  }

  /** No e-mail passes both portals' domain checks. */
  lemma DomainsExclusive(email: string)
    ensures !(EndsWith(email, StudentDomain) && EndsWith(email, AdminDomain))
  {
    if EndsWith(email, StudentDomain) {
      // Eight characters from the end, the student domain has 'i' where the admin domain has 'h'.
      assert email[|email| - 8] == StudentDomain[5] == 'i';
      assert AdminDomain[12] == 'h';
    }
  }

  /**
    The log-in forms: the user must exist, the password must check against
    the stored hash (`passwordOk`), and the stored role must be the portal's;
    then the session records the login and moves to the dashboard. Otherwise
    nothing changes (`None`: "Invalid username or password.").
  */
  function Login(s: Session, portal: Role, username: string, user: Option<UserRecord>, passwordOk: bool): (r: Option<Session>)
    ensures r.Some? <==> user.Some? && passwordOk && user.value.role == portal
    ensures r.Some? ==> && r.value.loggedIn && r.value.role == Some(portal)
                        && r.value.username == Some(username) && r.value.page == Dashboard(portal)
                        && r.value.messages == s.messages
  {
    if user.Some? && passwordOk && user.value.role == portal then
      Some(s.(loggedIn := true, role := Some(portal), username := Some(username), page := Dashboard(portal)))
    else None
  }

  /** An account can only log in through the portal of its own role. */
  lemma LoginNeedsMatchingRole(s: Session, portal: Role, username: string, user: UserRecord, passwordOk: bool)
    requires user.role != portal
    ensures Login(s, portal, username, Some(user), passwordOk).None?
  {
  }

  // ---------------------------------------------------------------- chat

  /**
    Python's `StillLearningMarker in answer` on a knowledge-base answer: a
    substring test on text, an element test on a list, a key test on a
    dictionary; on a number it raises `TypeError` (`None`).
  */
  function MarkerTest(answer: Value): (r: Option<bool>)
    ensures r.None? <==> !(answer.Str? || answer.List? || answer.Dict?)
    ensures r.None? ==> !MentionsMarker(answer)
  {
    match answer
    case Str(s) => Some(Contains(s, StillLearningMarker))
    case List(items) => Some(Str(StillLearningMarker) in items)
    case Dict(es) => Some(StillLearningMarker in Keys(es))
    case _ => None
  }

  /** The answer mentions the still-learning marker (numbers and `None` never do). */
  predicate MentionsMarker(answer: Value) {
    match answer
    case Str(s) => exists i :: 0 <= i <= |s| && OccursAt(s, StillLearningMarker, i)
    case List(items) => exists i :: 0 <= i < |items| && items[i] == Str(StillLearningMarker)
    case Dict(es) => exists i :: 0 <= i < |es| && es[i].key == StillLearningMarker
    case _ => false
  }

  /** The knowledge-base answer is shown as it is. */
  predicate UsesKbAnswer(answer: Value) {
    Truthy(answer) && !MentionsMarker(answer)
  }

  /**
    The answer chain of one chat turn, given the knowledge-base answer and
    what the language-model handler would reply: the knowledge-base answer
    when it is truthy and `"I'm still learning" not in answer` holds; the
    model's reply when that test is false. When the test raises (a number),
    the `except` branch searches again, gets the same answer, and shows it.
  */
  function SelectResponse(answer: Value, llmReply: string): (r: Value)
    ensures UsesKbAnswer(answer) ==> r == answer
    ensures !UsesKbAnswer(answer) ==> r == Str(llmReply)
    ensures r == Str(CouldNotFind) ==> answer == Str(CouldNotFind) || llmReply == CouldNotFind
  {
    MarkerTestAgrees(answer);
    if !Truthy(answer) then Str(llmReply)
    else
      match MarkerTest(answer)
      case Some(true) => Str(llmReply)
      case Some(false) => answer
      case None =>
        var again := answer;   // search_knowledge_base is deterministic
        if Truthy(again) then again else Str(CouldNotFind)
  }

  /** Python's membership test agrees with `MentionsMarker` whenever it does not raise. */
  lemma MarkerTestAgrees(answer: Value)
    ensures MarkerTest(answer).Some? ==> (MarkerTest(answer).value <==> MentionsMarker(answer))
    ensures MarkerTest(answer).None? ==> !MentionsMarker(answer)
  {
    match answer
    case Str(s) => ContainsAt(s, StillLearningMarker);
    case Dict(es) =>
      if StillLearningMarker in Keys(es) {
        var i :| 0 <= i < |Keys(es)| && Keys(es)[i] == StillLearningMarker;
        assert es[i].key == StillLearningMarker;
      }
    case _ =>
  }

  /** Creates the user's transcript when there is none yet (done before the chat is shown). */
  function EnsureTranscript(s: Session, user: string): (s': Session)
    ensures user in s'.messages
    ensures s'.messages[user] == (if user in s.messages then s.messages[user] else [])
    ensures forall u :: u in s.messages ==> u in s'.messages && s'.messages[u] == s.messages[u]
    ensures s'.messages.Keys == s.messages.Keys + {user}
    ensures s' == s.(messages := s'.messages)
  {
    if user in s.messages then s else s.(messages := s.messages[user := []])
  }

  /**
    One run of the chat box: with a non-empty query, the user's message and
    then the assistant's response are appended to the current user's
    transcript; an empty box appends nothing.
  */
  function ChatTurn(s: Session, query: string, answer: Value, llmReply: string): (s': Session)
    requires s.username.Some?
    ensures var u := s.username.value;
            var before := if u in s.messages then s.messages[u] else [];
            && u in s'.messages
            && (query != [] ==> s'.messages[u] == before + [Message(User, Str(query)), Message(Assistant, SelectResponse(answer, llmReply))])
            && (query == [] ==> s'.messages[u] == before)
            && s'.messages.Keys == s.messages.Keys + {u}
            && (forall v :: v in s.messages && v != u ==> s'.messages[v] == s.messages[v])
            && s' == s.(messages := s'.messages)
  {
    var u := s.username.value;
    var s1 := EnsureTranscript(s, u);
    if query == [] then s1
    else
      var response := SelectResponse(answer, llmReply);
      var t := s1.messages[u] + [Message(User, Str(query))] + [Message(Assistant, response)];
      s1.(messages := s1.messages[u := t])
  }

  /** Each chat turn with a query grows the user's transcript by exactly two messages, user first. */
  lemma ChatTurnAddsTwo(s: Session, query: string, answer: Value, llmReply: string)
    requires s.username.Some? && query != []
    ensures var u := s.username.value;
            var t := ChatTurn(s, query, answer, llmReply).messages[u];
            var n := if u in s.messages then |s.messages[u]| else 0;
            && |t| == n + 2
            && t[n].speaker == User && t[n].content == Str(query)
            && t[n + 1].speaker == Assistant
  {
  }

  /** "New Chat": the current user's transcript, if there is one, becomes empty; nothing else changes. */
  function NewChat(s: Session): (s': Session)
    requires s.username.Some?
    ensures var u := s.username.value;
            && s'.messages.Keys == s.messages.Keys
            && (u in s.messages ==> s'.messages[u] == [])
            && (forall v :: v in s.messages && v != u ==> s'.messages[v] == s.messages[v])
            && s' == s.(messages := s'.messages)
  {
    var u := s.username.value;
    if u in s.messages then s.(messages := s.messages[u := []]) else s
  }

  /**
    The whole answer of one chat turn: the knowledge-base search over the
    given similarity scores, then the language-model handler with the
    endpoint's behaviour `post`.
  */
  function ChatResponse(render: Renderer, data: KbManager.KbData, scores: seq<real>, query: string,
                        post: string -> LlmHandler.ApiResponse): (r: Value)
    requires |data.corpus.values| > 0 && |scores| == |data.corpus.values|
    ensures var answer := KbManager.SearchKnowledgeBase(data, scores);
            || (UsesKbAnswer(answer) && r == answer)
            || (!UsesKbAnswer(answer) && r == Str(LlmHandler.GenerateLlmResponse(render, query, Some(Dict(data.kb)), post)))
  {
    SelectResponse(
      KbManager.SearchKnowledgeBase(data, scores),
      LlmHandler.GenerateLlmResponse(render, query, Some(Dict(data.kb)), post))
  }

  /** No line scoring above the threshold always hands the query to the language-model handler. */
  lemma LowScoresAskTheModel(render: Renderer, data: KbManager.KbData, scores: seq<real>, query: string,
                             post: string -> LlmHandler.ApiResponse)
    requires |data.corpus.values| > 0 && |scores| == |data.corpus.values|
    requires forall j :: 0 <= j < |scores| ==> scores[j] <= KbManager.Threshold
    ensures ChatResponse(render, data, scores, query, post)
            == Str(LlmHandler.GenerateLlmResponse(render, query, Some(Dict(data.kb)), post))
  {
    assert StillLearningMarker <= KbManager.StillLearning;
    assert OccursAt(KbManager.StillLearning, StillLearningMarker, 0);
  }

  /**
    A line scoring above the threshold answers directly with the value behind
    the best-scoring line, as long as that value is truthy and free of the marker.
  */
  lemma HighScoreAnswersDirectly(render: Renderer, data: KbManager.KbData, scores: seq<real>, query: string,
                                 post: string -> LlmHandler.ApiResponse, k: int)
    requires |data.corpus.values| > 0 && |scores| == |data.corpus.values|
    requires KbManager.IsFirstMax(scores, k) && scores[k] > KbManager.Threshold
    requires UsesKbAnswer(data.corpus.values[k])
    ensures ChatResponse(render, data, scores, query, post) == data.corpus.values[k]
  {
    var best := KbManager.ArgMax(scores);
    assert !(best < k) && !(k < best);
  }

  /**
    A chat turn fed by the knowledge-base search and the language-model
    handler records the query and then exactly the answer of the whole chain.
  */
  lemma ChatTurnRecordsChain(s: Session, render: Renderer, data: KbManager.KbData, scores: seq<real>, query: string,
                             post: string -> LlmHandler.ApiResponse)
    requires s.username.Some? && query != []
    requires |data.corpus.values| > 0 && |scores| == |data.corpus.values|
    ensures var u := s.username.value;
            var before := if u in s.messages then s.messages[u] else [];
            var answer := KbManager.SearchKnowledgeBase(data, scores);
            var reply := LlmHandler.GenerateLlmResponse(render, query, Some(Dict(data.kb)), post);
            ChatTurn(s, query, answer, reply).messages[u]
              == before + [Message(User, Str(query)), Message(Assistant, ChatResponse(render, data, scores, query, post))]
  {
  }

  // ---------------------------------------------------------------- complaints

  /** A complaint as the form hands it to `save_complaint`. */
  datatype Submission = Submission(studentName: string, issueType: string, description: string)

  /** The complaint form: saved only when the description is not blank; saved unstripped. */
  function SubmitComplaint(studentName: string, issueType: string, description: string): (r: Option<Submission>)
    ensures r.Some? <==> exists i :: 0 <= i < |description| && !IsSpace(description[i])
    ensures r.Some? ==> r.value == Submission(studentName, issueType, description)
  {
    BlankIffAllSpace(description);
    if !IsBlank(description) then Some(Submission(studentName, issueType, description)) else None
  }

  /**
    The admin's update form: resolving requires a non-blank response; any
    other status, or a resolution with a response, is written to the row's
    `status` and `admin_response` (the response as typed).
  */
  function AdminUpdate(c: Complaint, newStatus: string, response: string): (r: Option<Complaint>)
    ensures r.None? <==> newStatus == Resolved && forall i :: 0 <= i < |response| ==> IsSpace(response[i])
    ensures r.Some? ==> r.value == c.(status := newStatus, adminResponse := response)
  {
    BlankIffAllSpace(response);
    if newStatus == Resolved && IsBlank(response) then None
    else Some(c.(status := newStatus, adminResponse := response))
  }

  /**
    "Mark as Read" on a resolved complaint: `update_complaint_status` with
    status `read` and the admin's response passed back unchanged, so only the
    status changes.
  */
  function MarkAsRead(c: Complaint): (r: Complaint)
    ensures r == c.(status := Read)
  {
    c.(status := Read, adminResponse := c.adminResponse)
  }

  /** Python's `c[i]` on a complaint row. */
  function Column(c: Complaint, i: nat): string
    requires 1 <= i <= 5
  {
    if i == 1 then c.studentName
    else if i == 2 then c.issueType
    else if i == 3 then c.description
    else if i == 4 then c.status
    else c.adminResponse
  }

  /**
    `[c for c in complaints if c[5] != "read"]` as written: column 5 is the
    admin's response, not the status.
  */
  function ActiveComplaintsAsWritten(cs: seq<Complaint>): (r: seq<Complaint>)
    ensures forall c :: c in r <==> c in cs && c.adminResponse != Read
  {
    if |cs| == 0 then []
    else (if Column(cs[0], 5) != Read then [cs[0]] else []) + ActiveComplaintsAsWritten(cs[1..])
  }

  /** The list as written keeps the order of `get_complaints()` too: it distributes over `a + b`. */
  lemma {:induction false} ActiveComplaintsAsWrittenAppend(a: seq<Complaint>, b: seq<Complaint>)
    ensures ActiveComplaintsAsWritten(a + b) == ActiveComplaintsAsWritten(a) + ActiveComplaintsAsWritten(b)
  {
    if |a| == 0 {
      assert a + b == b;
    } else {
      var ab := a + b;
      assert ab[0] == a[0] && ab[1..] == a[1..] + b;
      ActiveComplaintsAsWrittenAppend(a[1..], b);
      var head := if Column(a[0], 5) != Read then [a[0]] else [];
      var ra, rb := ActiveComplaintsAsWritten(a[1..]), ActiveComplaintsAsWritten(b);
      assert ActiveComplaintsAsWritten(a) == head + ra;
      assert ActiveComplaintsAsWritten(ab) == head + (ra + rb);
      ConcatAssoc(head, ra, rb);
    }
  }

  /** A complaint marked as read stays on the admin's active list as written (unless its response is the word `read`). */
  lemma MarkedReadStaysActive(c: Complaint)
    requires c.adminResponse != Read
    ensures ActiveComplaintsAsWritten([MarkAsRead(c)]) == [MarkAsRead(c)]
    ensures ActiveComplaints([MarkAsRead(c)]) == []
  {
    assert [MarkAsRead(c)][1..] == [];
  }

  /** The concrete case: a resolved complaint answered "Fixed", then marked as read by the student. */
  lemma ReadComplaintStillListed()
    ensures var c := MarkAsRead(Complaint(1, "ravi", "Infrastructure", "Fan not working", Resolved, "Fixed"));
            ActiveComplaintsAsWritten([c]) == [c] && ActiveComplaints([c]) == []
  {
    MarkedReadStaysActive(Complaint(1, "ravi", "Infrastructure", "Fan not working", Resolved, "Fixed"));
  }

  /** The active list as intended: the complaints whose status (column 4) is not `read`, in their order. */
  function ActiveComplaints(cs: seq<Complaint>): (r: seq<Complaint>)
    ensures |r| <= |cs|
  {
    if |cs| == 0 then []
    else (if Column(cs[0], 4) != Read then [cs[0]] else []) + ActiveComplaints(cs[1..])
  }

  /** The intended active list holds exactly the complaints whose status is not `read`. */
  lemma {:induction false} ActiveComplaintsExact(cs: seq<Complaint>)
    ensures forall c :: c in ActiveComplaints(cs) <==> c in cs && c.status != Read
  {
    if |cs| > 0 {
      ActiveComplaintsExact(cs[1..]);
      assert cs == [cs[0]] + cs[1..];
    }
  }

  /** Filtering keeps the order: the active complaints of `a + b` are those of `a` followed by those of `b`. */
  lemma {:induction false} ActiveComplaintsAppend(a: seq<Complaint>, b: seq<Complaint>)
    ensures ActiveComplaints(a + b) == ActiveComplaints(a) + ActiveComplaints(b)
  {
    if |a| == 0 {
      assert a + b == b;
    } else {
      var ab := a + b;
      assert ab[0] == a[0] && ab[1..] == a[1..] + b;
      ActiveComplaintsAppend(a[1..], b);
      var head := if Column(a[0], 4) != Read then [a[0]] else [];
      var ra, rb := ActiveComplaints(a[1..]), ActiveComplaints(b);
      assert ActiveComplaints(a) == head + ra;
      assert ActiveComplaints(ab) == head + (ra + rb);
      ConcatAssoc(head, ra, rb);
    }
  }

  // ---------------------------------------------------------------- sessions over time

  /** The buttons and forms that change the session. */
  datatype Event =
    | OpenPortal(portal: Role)
    | BackToHome
    | LoginSubmitted(portal: Role, name: string, user: Option<UserRecord>, passwordOk: bool)
    | Logout
    | NewChatPressed
    | ChatSubmitted(query: string, answer: Value, llmReply: string)

  /** The event can happen on the page the session shows. */
  predicate Enabled(s: Session, e: Event) {
    match e
    case OpenPortal(_) => Route(s) == Homepage
    case BackToHome => ShowsBackButton(s)
    case LoginSubmitted(portal, _, _, _) => Route(s) == LoginView(portal)
    case Logout => Route(s) == StudentView || Route(s) == AdminView
    case NewChatPressed => Route(s) == StudentView && s.username.Some?
    case ChatSubmitted(_, _, _) => Route(s) == StudentView && s.username.Some?
  }

  /**
    The session after the event. Only the log-in form and logout change who
    is signed in. Logout clears the whole session, every user's transcript
    included, back to the defaults; otherwise only chat turns and "New Chat"
    touch the transcripts, and then only the current user's.
  */
  function Step(s: Session, e: Event): (s': Session)
    requires Enabled(s, e)
    ensures !e.LoginSubmitted? && !e.Logout? ==>
              s'.loggedIn == s.loggedIn && s'.role == s.role && s'.username == s.username
    ensures e.Logout? ==> s' == Initial()
    ensures e.OpenPortal? ==> s'.page == LoginPage(e.portal)
    ensures e.BackToHome? ==> s'.page == Home
    ensures e.OpenPortal? || e.BackToHome? ==> s'.messages == s.messages
    ensures e.NewChatPressed? || e.ChatSubmitted? ==>
              forall v :: v in s.messages && v != s.username.value ==> v in s'.messages && s'.messages[v] == s.messages[v]
  {
    match e
    case OpenPortal(portal) => s.(page := LoginPage(portal))
    case BackToHome => s.(page := Home)
    case LoginSubmitted(portal, name, user, ok) =>
      (match Login(s, portal, name, user, ok)
       case Some(s') => s'
       case None => s)
    case Logout => Initial()   // session_state.clear(), then the defaults again
    case NewChatPressed => NewChat(s)
    case ChatSubmitted(query, answer, reply) => ChatTurn(s, query, answer, reply)
  }

  /** Every event keeps the session valid, starting from the defaults. */
  lemma StepPreservesValid(s: Session, e: Event)
    requires Valid(s) && Enabled(s, e)
    ensures Valid(Step(s, e))
  {
    RouteOfValid(s);
  }

  lemma InitialIsValid()
    ensures Valid(Initial()) && Route(Initial()) == Homepage
  {
  }
}

# Student HelpDesk — a Dafny model of its answer pipeline and page rules

The Student HelpDesk is a small college helpdesk web app. Students log in,
ask a chatbot about the college, and file complaints; administrators work
through the complaints. This project models, in Dafny, the parts of it that
hold decisions:

- **Knowledge base** (`kb_manager.dfy`, module `KbManager`). The nested
  knowledge-base dictionary is flattened into a text corpus. Beside the corpus
  runs a parallel list of the original values. A search result comes from one
  similarity score per corpus line. The answer is the value behind the first
  best-scoring line when that score is strictly above 0.3, and the sentence
  "I'm still learning about the college." otherwise.
- **Language-model fallback** (`llm_handler.dfy`, module `LlmHandler`). The
  knowledge base is flattened for a prompt; this flattening also descends into
  lists. The prompt is the flattened lines followed by the user's query. The
  endpoint's reply decides the answer: the first candidate's content, or a
  case-insensitive first-match substring search over the same lines.
- **Page rules** (`app.dfy`, module `App`). These cover the e-mail domain check
  on sign-up, the role check on log-in, and the chat's answer chain. They also
  cover the per-user transcripts, "New Chat", complaint and admin-update
  validation, the admin's active-complaints list, and routing. The session is
  an immutable record, and every button is a function from one session to the
  next.
- `values.dfy` (`Values`) holds the dynamically typed values: `None`, text,
  integers, floats, lists and insertion-ordered dictionaries. It also holds
  Python truthiness. `strings.dfy` (`Strings`) holds the `str` operations used:
  `endswith`, `in`, `lower`, `strip`, `join` and `[:-1]`. It also has `split`,
  which the helpdesk never calls; it is used only to state that the prompt
  gives its lines back.
  `wrappers.dfy` holds `Option`/`Result`.

Python's `str()` of a value is not modelled; each operation that formats takes
it as a parameter `render`. The similarity scores, the endpoint's reply, the
database lookups and the password check are inputs too.

## Model

| member | source | states |
|---|---|---|
| KbManager.FlattenEntries | kb_manager.py:119-125 | The corpus lines and the mapped values always have equal length, because every leaf appends to both. |
| KbManager.FlattenCount | kb_manager.py:119-125 | The number of lines equals the number of non-dictionary values reachable through dictionaries. A list counts once and an empty dictionary contributes nothing. |
| KbManager.FlattenLinesMatchValues | kb_manager.py:119-125 | The keys of a dictionary are unique at every level. Line i is then the dot-joined key path of value i, then ": ", then the value rendered. Following that key path through the dictionary reaches value i itself, unstringified. |
| KbManager.EveryLeafIsFlattened | kb_manager.py:119-125 | Every non-dictionary value reachable by a key path has that path among the flattened entries. |
| KbManager.FlattenAppend | kb_manager.py:119-127 | Flattening a dictionary gives the flattenings of its entries concatenated in insertion order. The traversal is depth-first. |
| KbManager.FlattenItemInto | kb_manager.py:121-125 | One loop step recurses under `prefix + key + "."` for a dictionary value. For any other value it appends exactly that entry's line and value. |
| KbManager.FlattenInto | kb_manager.py:119-125 | The looping, appending closure builds exactly the corpus and mapping of the recursive definition, after whatever the lists already held. |
| KbManager.LoadKnowledgeBase | kb_manager.py:112-137 | Loading fails exactly when the knowledge base has no leaf, because fitting an empty corpus raises. Otherwise it keeps the dictionary and its flattened corpus. |
| KbManager.ArgMax | kb_manager.py:149 | The selected index holds the maximum score, and every earlier index scores strictly less. This is the first maximum. |
| KbManager.SearchKnowledgeBase | kb_manager.py:139-153 | If some score exceeds 0.3, the result is the mapped value at the first maximum. If no score exceeds 0.3, the result is the still-learning sentence. |
| KbManager.FeeSampleFlattened | kb_manager.py:73-77 | The fee structure flattens to three lines of the form `FEE_STRUCTURE.<fee>: <amount>`, in order, each beside its integer amount. |
| KbManager.ExamFeeLine | kb_manager.py:73-77 | With `str(1200) == "1200"`, the exam fee's line is `FEE_STRUCTURE.Exam_Fee_Sem: 1200` and its mapped value is 1200. |
| KbManager.ThresholdIsStrict | kb_manager.py:151-153 | A best score of exactly 0.3 gives the still-learning sentence, and 0.31 gives the mapped value. |
| LlmHandler.PromptLinesRenderLeaves | llm_handler.py:14-23 | The number of prompt lines equals the number of leaves that are not None, not a dict and not a list. Line i ends with ": " and leaf i rendered, in depth-first order. |
| LlmHandler.EntriesRenderLeaves | llm_handler.py:15-17 | A dictionary's lines are its values' lines in key order, one per scalar leaf. |
| LlmHandler.ItemsRenderLeaves | llm_handler.py:18-20 | A list's lines are its elements' lines in positional order, one per scalar leaf. |
| LlmHandler.PromptItemsAppend | llm_handler.py:18-20 | List elements are flattened one after another under `prefix + str(index) + "."`. Positions continue across a split: the elements of the second part are numbered from the length of the first. |
| LlmHandler.FlattenForPrompt | llm_handler.py:9-23 | `None` yields no lines. The line count and each line's rendered leaf come from LlmHandler.PromptLinesRenderLeaves. The full lines on dictionaries without lists or None come from LlmHandler.PromptMatchesCorpus. |
| LlmHandler.Prompt | llm_handler.py:32 | For any lines, none included, the prompt ends with "\n\nUser Query: " and the query. What precedes that label is exactly the lines joined with newlines. |
| LlmHandler.KbLines | llm_handler.py:31 | Without a knowledge base there are no lines. Otherwise the lines are the prompt flattening of `kb_dict` from the empty prefix, which LlmHandler.PromptLinesRenderLeaves describes. |
| LlmHandler.PromptMatchesCorpus | llm_handler.py:15-22 | On a dictionary without lists or None, the prompt lines equal the search corpus lines. Dropping the trailing dot of `prefix + key + "."` gives the search corpus's `prefix + key`. |
| LlmHandler.PromptRecoversLines | llm_handler.py:31-32 | Suppose no line holds a newline. Cutting the labelled query off the prompt and splitting the rest at newlines gives back exactly the knowledge-base lines when there is at least one. With no lines it gives one empty line, as Python's `"".split("\n")` does. |
| LlmHandler.MatchingLines | llm_handler.py:65 | The filtered list holds exactly the lines that contain the query, ignoring case. It is empty exactly when no line matches, and it starts with the first matching line. |
| LlmHandler.FallbackKbResponse | llm_handler.py:59-69 | The result is the first line whose lowercased text contains the lowercased query. When no line matches, it is the not-found sentence. |
| LlmHandler.FallbackIsLineOrSentinel | llm_handler.py:64-69 | The fallback answer is the not-found sentence when no line contains the query, ignoring case. Otherwise it is a matching line before which no line matches. It is never anything else. |
| LlmHandler.GenerateLlmResponse | llm_handler.py:25-57 | The prompt sent is the lines of `kb_dict` (none without a knowledge base) followed by the query. An object as first candidate gives its content, or the could-not-generate sentence when content is missing. A missing or empty candidate list, a non-object candidate, or a failed call gives the first matching line, or the not-found sentence when no line matches. |
| LlmHandler.FailureFallsBackToKb | llm_handler.py:45-57 | Without a usable first candidate the reply is never invented. It is the first knowledge-base line containing the query, ignoring case, or the not-found sentence when no line contains it. |
| Strings.ContainsAt | llm_handler.py:65 | Python's `sub in s` holds exactly when `sub` occurs in `s` at some position. |
| Strings.BlankIffAllSpace | app.py:220 | `not s.strip()` holds exactly when every character of `s` is whitespace. |
| Strings.SplitJoin | llm_handler.py:32 | For at least one element, none holding a newline, splitting the newline-joined list at newlines gives the list back. The empty list joins to "" and splits to one empty string, which LlmHandler.PromptRecoversLines states. |
| App.Signup | app.py:93-99 | Sign-up is rejected exactly when the e-mail does not end with the portal's domain (`@pvpsit.ac.in` for students, `@pvpsiddhartha.ac.in` for admins). An account is created exactly when the domain is right and registration succeeds. |
| App.DomainCheckIffLocalPart | app.py:130 | An e-mail passes a portal's domain check exactly when it is some local part followed by that domain. |
| App.DomainsExclusive | app.py:94 | No e-mail passes both portals' domain checks. |
| App.Login | app.py:75-84 | Log-in succeeds exactly when the user exists, the password checks out and the stored role is the portal's. Success sets logged-in, role, username and the dashboard page and keeps the transcripts. Failure changes nothing. |
| App.LoginNeedsMatchingRole | app.py:114-121 | An account of the other role never logs in through a portal, whatever the password. |
| App.Route | app.py:285-298 | The page `home` always shows the homepage. A logged-out user is only ever shown the homepage or one of the two login pages, never a dashboard. App.RouteOfValid gives the dashboard for logged-in users. |
| App.RouteOfValid | app.py:285-298 | In a valid session a logged-in user is routed to their role's dashboard. A logged-out user is routed to the login page they chose, or the homepage for `home`. No valid session renders nothing. |
| App.MarkerTest | app.py:189 | The membership test raises exactly on answers that are not text, a list or a dictionary, and none of those mentions the marker. App.MarkerTestAgrees adds that when it does not raise, its verdict is App.MentionsMarker. |
| App.MarkerTestAgrees | app.py:189 | Python's `"I'm still learning" in answer` is a substring, element or key test. Whenever it does not raise, it agrees with "the answer mentions the marker", and it raises only on answers that cannot mention it. |
| App.SelectResponse | app.py:187-196 | The knowledge-base answer is shown exactly when it is truthy and does not mention "I'm still learning". Otherwise the language model's reply is shown. The except branch's "Sorry, I could not find an answer." never appears unless one of its inputs already is that text. |
| App.EnsureTranscript | app.py:168-169 | The current user gets an empty transcript if they had none. Every existing transcript and every other session field is unchanged. |
| App.ChatTurn | app.py:182-199 | A non-empty query appends the user's message and then the assistant's response to the current user's transcript. An empty one appends nothing. Other users' transcripts and the rest of the session are unchanged. |
| App.ChatTurnAddsTwo | app.py:184-199 | A chat turn grows the user's transcript by exactly two messages, user first, then assistant. |
| App.NewChat | app.py:143-147 | "New Chat" empties the current user's transcript only if it exists. No transcript is created or removed, and no other user's transcript changes. |
| App.LowScoresAskTheModel | app.py:188-192 | When no corpus line scores above 0.3, the chat's answer is the language-model handler's reply. |
| App.HighScoreAnswersDirectly | app.py:188-190 | When the best line scores above 0.3 and its value is truthy and free of the marker, the chat answers with that value directly. |
| App.ChatResponse | app.py:187-192 | The chat's answer is the knowledge-base search's answer when that is truthy and free of the marker. Otherwise it is the language-model handler's reply for the same query and knowledge base. |
| App.ChatTurnRecordsChain | app.py:182-199 | A chat turn fed by the search and the language-model handler appends the query and then exactly App.ChatResponse's answer to the user's transcript. |
| App.SubmitComplaint | app.py:219-224 | A complaint is saved exactly when its description has a non-whitespace character. It is saved with the description as typed. |
| App.AdminUpdate | app.py:269-275 | An update is rejected exactly when the new status is "resolved" and the response is all whitespace. Otherwise the row gets the new status and response, and nothing else changes. |
| App.MarkAsRead | app.py:162-165 | "Mark as Read" sets the status to "read" and changes nothing else. The update writes only status and response, and the response is passed back as it was. |
| App.ActiveComplaintsAsWritten | app.py:253 | The list as written keeps exactly the rows whose column 5, the admin response, is not "read". |
| App.ActiveComplaintsAsWrittenAppend | app.py:253 | The list as written also keeps the order of the complaint list: the rows kept from `a + b` are those kept from `a`, then those kept from `b`. |
| App.MarkedReadStaysActive | app.py:253 | A complaint marked as read stays on the as-written active list, while the intended list drops it. |
| App.ActiveComplaints | app.py:253 | The intended active list is never longer than the complaint list. |
| App.ActiveComplaintsExact | app.py:253 | The intended active list holds exactly the complaints whose status is not "read". |
| App.ActiveComplaintsAppend | app.py:253 | Filtering keeps the original order: the active complaints of `a + b` are those of `a` followed by those of `b`. |
| App.StepPreservesValid | app.py:54-304 | The homepage buttons, back button, log-in forms, logout, "New Chat" and chat turns each keep a valid session valid. Logged in means role and username are set and the page is that role's dashboard. |
| App.Step | app.py:54-304 | The portal buttons open the chosen login page, and the back button returns home. Logout resets the whole session to its defaults, which empties every user's transcript. Apart from that, only the log-in form changes who is signed in. The portal and back buttons leave every transcript alone. A chat turn or "New Chat" leaves every other user's transcript unchanged. App.StepPreservesValid states that each event keeps the session valid. |
| App.InitialIsValid | app.py:26-31 | The session defaults are valid and show the homepage. |

## Left out

- TF-IDF fitting and cosine similarity (kb_manager.py:128-129, 147-148) are not modelled, because they are a library's floating-point numerics. A search takes one similarity score per corpus line as an input `seq<real>`. The vectoriser's other failure is also not modelled: it raises when every line has only one-letter tokens.
- Scores are exact reals and the threshold is exactly 3/10. No double lies strictly between the double nearest 0.3 and 3/10, so for double scores `> 0.3` means the same. numpy's handling of NaN in `argmax` is not modelled.
- The HTTP request is not modelled, because it is network I/O: the URL, API key, headers, payload (temperature 0.7, 512 tokens) and the 15-second timeout (llm_handler.py:6-7, 35-46). The endpoint is the parameter `post`, which maps the prompt to an `ApiResponse`. A first candidate's `content` is taken to be text.
- Python's `str()`/repr of numbers, lists and dicts is not modelled, because it is the language's formatting, not this program's logic. It is the parameter `render`; dictionary keys are text.
- `lower()` maps only ASCII letters, because Python's full Unicode case mapping is not part of this model. `strip()` uses Python's full whitespace set.
- database_manager.py is not part of this model, because it is SQLite CRUD with bcrypt hashing. `get_user` becomes an `Option<UserRecord>` input and `register_user` a success flag. Only the column order of a `complaints` row is modelled. The student's list of resolved complaints (app.py:156) is a database query and is not modelled.
- `check_password` (app.py:36-37) becomes the flag `passwordOk`, because bcrypt is a foreign library.
- Streamlit is not modelled, because it is rendering. This includes rendering, CSS loading, `st.cache_data`, `st.rerun`, the spinner, the chat and history display, and error printing. A Streamlit text box keeps its value across reruns, so in the app every rerun with a non-empty chat box is another turn. The model treats one run as one turn.
- The literal knowledge-base contents are not modelled, because they are data. Only the fee structure appears, as an example (kb_manager.py:73-77).
- LlmHandler.PromptLinesRenderLeaves: it fixes each prompt line's rendered leaf and order, but not its key/index path. The path is fixed only for dictionaries without lists or None, through LlmHandler.PromptMatchesCorpus.
- LlmHandler.EntriesRenderLeaves: it fixes the count, order and rendered leaf of a dictionary's lines, but not the `prefix + key + "."` path in front of them (llm_handler.py:17). The path is fixed only for dictionaries without lists or None, through LlmHandler.PromptMatchesCorpus.
- LlmHandler.ItemsRenderLeaves: it fixes the count, order and rendered leaf of a list's lines, but not the `prefix + str(index) + "."` path in front of them (llm_handler.py:20). LlmHandler.PromptItemsAppend fixes how the numbering continues.
- KbManager.SearchKnowledgeBase: it requires a non-empty corpus with one score per line. Loading fails on an empty corpus, so no search runs on one.
- A whitespace-only chat message is still answered, because the chat only checks that the box is non-empty (app.py:182). Answers are plain values: the mapped value, the model's text or a fallback line.

## Findings

| source | as written | input that shows it | evidently intended | confidence | as-written member | corrected member |
|---|---|---|---|---|---|---|
| app.py:253 | `[c for c in complaints if c[5] != "read"]`. Rows are `SELECT *` of `(id, student_name, issue_type, description, status, admin_response)` (database_manager.py:26-33), so `c[5]` is the admin's response | the row `(1, "ravi", "Infrastructure", "Fan not working", "resolved", "Fixed")` after "Mark as Read" sets its status to "read" (app.py:164): it is still listed as active | filter on the status, `c[4] != "read"` | high; not executed | App.ActiveComplaintsAsWritten, App.MarkedReadStaysActive, App.ReadComplaintStillListed | App.ActiveComplaints, App.ActiveComplaintsExact, App.ActiveComplaintsAppend |

The same column mix-up shows the admin's response under "Status" on the
dashboard (app.py:263). That line only renders and is not modelled.

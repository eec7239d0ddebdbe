# Hermes multitenancy: verified models of its stateful cores

This project models, in Dafny, the parts of Hermes multitenancy that keep state and whose
correctness is a matter of whole runs rather than of single branches, and proves what they
promise.

* **The diagnostics log reader** (`DayFile`, `Locator`, `PositionMemo`, `DiagScan`,
  `DiagTrace`, `DiagPaging`, `DiagFollow`, `DiagStall`, `DiagReader`). Day files are sequences of bytes. The model holds
  the bounded line read, the binary search over byte offsets, the shared memo of resume
  positions, the three byte budgets and every way a line or a file is given up. `DiagReader`
  is the object with its fields updated in loops; it is proved equal to the functions of
  `DiagScan`, about which the paging theorems are stated.
* **The billing credential lifecycle** (`Billing`, `BillingManager`, `BillingDuty`,
  `BillingRaces`, `KeySweep`). One vault
  row with its pending, acknowledged and previous credentials; broker, probe and clock are
  functions from the number of a call to an arbitrary answer, so a theorem for all of them is a
  theorem for every behaviour of the outside. Every vault write is recorded, which is what
  crash safety speaks about. `BillingRaces` splits `mark_invalid` and `store_binding` into their
  atomic vault operations and lets another process do anything to the row in between. `KeySweep`
  runs `store_binding` over a cohort under a cap and shows that passes converge.
* **The relay store** (`RelayEnroll`, `RelayMessages`, `RelayDuty`, `RelayTraffic`,
  `RelayLogs`) and the **OAuth grant
  store** (`OAuthGrants`). Tables are maps; each locked method is one step; random draws are
  arguments that must be new; the clock is an argument. Invariants hold in every reachable
  state, and an evolution relation says what rows may become over a whole run. An OAuth request
  between its steps is a "flight", so concurrent exchanges interleave. `RelayTraffic` puts the
  requests on top of the relay's store: `create_card` in its order of calls, and replies and
  clicks with their separate token look-up, as threads that interleave and may break off anywhere.
* **The limiters** (`SlidingWindow`, `EnrollLimiter`, `AdminLimiter`) are proved to decide as
  the complete admission history would, although they forget most of it.
* **The ledger audit** (`Ledger`, `LedgerVerdict`, `LedgerFindings`, `LedgerAudit`): the loops of `audit` are
  proved to compute a declarative report, whose PASS is proved equivalent to a clean book.

What a single request must do is stated beside the invariants in the fields of the rows and in plain
numbers, apart from the functions that the methods are proved against: `DiagTrace` for each read of a
log, `BillingDuty` for the credential protocol, `RelayDuty` and the `…Does` lemmas for the stores,
`LedgerFindings` for every kind of finding and every number of the report.

## What the proofs brought to light

* A log line of an ignored kind consumes the page budget without moving the cursor, and so do
  other bytes before the first row past the cursor. A page is truncated without a cursor, and
  stops its follower for good, exactly when the sum of these charges exceeds the budget, for
  arbitrary files (`DiagStall.StallsIff`, with `DiagStall.IgnoredLineStalls` as an instance). As
  long as that does not happen, paging is lossless whatever kinds of lines there are
  (`DiagStall.PaidWalkIsLossless`); over record lines it never happens
  (`DiagFollow.PagingIsLossless`).
* With the cursor at or past the last id, `_locate` does not return the size of the file, as its
  comment promises, but always the second byte of the last whole line (0 if there is none). An
  uncut search of id-bearing lines returns a line start if and only if a line lies beyond the
  cursor, or there is no whole line, or the last one is a bare newline
  (`Locator.LocateAtTail`, `Locator.LocateIsLineStartIff`, with `Locator.TailIsInsideTheLine` as an
  input). No row is skipped or repeated for it (`DayFile.ResumeReadsSuffix`).
* When the probe of a pending credential passes, the previous one is dropped, and the row left
  behind works exactly if the new one is unexpired and not marked invalid
  (`Billing.PassingProbeSafeIff`). A broker that answers 410 `credential_gone` is the other
  exception to crash safety: a renewal is safe after every write if and only if none of the
  acknowledgements it asked for was answered so (`Billing.RenewalIsCrashSafe`,
  `Billing.GoneDropsTheCredential`).
* The compare-and-set covers `(credential_version, key_id)` only. Within one generation
  `mark_invalid` writes back the copy it loaded, undoing whatever else changed meanwhile
  (`BillingRaces.MarkIsFaithfulIff`, `BillingRaces.MarkCanUndoAnAck`); and the rollback of
  `store_binding` restores what its own write replaced exactly if that is what its first read
  found (`BillingRaces.RollbackRestoresIff`).
* The actor's tokens are looked up under the lock once and used under it later. A token revoked in
  between still takes the reply; it is active at that moment exactly if nobody revoked it since
  the look-up (`RelayTraffic.StillActiveIff`, `RelayTraffic.RevokedStillAnswers`).
* A sweep's event callback that raises after a key was stored makes its member count as issued and
  as failed, so the counters exceed the members checked by the number of such callbacks; one that
  raises on a failure ends the pass (`KeySweep.Sweep`).
* A folded employee id that starts with `ou_` is accepted as a subject once and refused when
  read again, `OU_1` for one (`Ledger.RefoldIff`, `Ledger.RefoldedIdIsRefused`).

## Model

| member | source | states |
|---|---|---|
| DayFile.ReadLine | hermes_multitenancy/agent_relay_admin_diag.py:744-762 | One read never exceeds the line cap or the budget; it reports a line exactly when a newline ends it, a partial tail only when no newline follows in the file, end of file exactly when nothing was read, and oversize only when the limit was filled |
| DayFile.ReadWhole | hermes_multitenancy/agent_relay_admin_diag.py:744-762 | A terminated line within the cap is read whole unless the budget is used up by it |
| DayFile.ResumeReadsSuffix | hermes_multitenancy/agent_relay_admin_diag.py:833-948 | A scan from any place a search can end, line start or inside an id-bearing line, before which nothing beyond the cursor lies, reads the rows of the plain scan minus a prefix that the cursor already covers; other lines may hold anything |
| DayFile.LineEndAppend | hermes_multitenancy/agent_relay_admin_diag.py:744-762 | Appending to a file changes neither the end nor the bytes of any terminated line |
| Locator.LineAt | hermes_multitenancy/agent_relay_admin_diag.py:764-795 | A probe spends no more than its budget and answers with a start inside the file or none |
| Locator.LineAtFinds | hermes_multitenancy/agent_relay_admin_diag.py:764-795 | A probe that finds a line finds the first whole line at or after its offset, with that line's row |
| Locator.LineAtMisses | hermes_multitenancy/agent_relay_admin_diag.py:764-795 | A probe that finds none within its budget means that no whole line starts at or after the offset |
| Locator.Locate | hermes_multitenancy/agent_relay_admin_diag.py:797-831 | The loop over `lo`, `hi` and `spent` computes the search that the lemmas below are about |
| Locator.Located | hermes_multitenancy/agent_relay_admin_diag.py:797-831 | The result lies in the file and the search never spends more than the locate budget |
| Locator.LocateSkipsNothing | hermes_multitenancy/agent_relay_admin_diag.py:797-831 | On a file with ids in order, every id-bearing line before the result has an id at most the cursor, also when the byte budget or the 64-step guard cut the search off |
| Locator.LocateIsExact | hermes_multitenancy/agent_relay_admin_diag.py:797-831 | On id-bearing lines with an uncut search no line lies between the result and the first line beyond the cursor, and the result is exactly its start if there is one; 64 steps always suffice below 2^64 bytes; where there is none LocateAtTail gives the result |
| Locator.LocateAtTail | hermes_multitenancy/agent_relay_admin_diag.py:797-831 | With no line beyond the cursor, an uncut search of id-bearing lines returns the second byte of the last whole line, or 0 if there is none, not the size of the file |
| Locator.LocateIsLineStartIff | hermes_multitenancy/agent_relay_admin_diag.py:797-831 | An uncut search of id-bearing lines returns a line start if and only if a line lies beyond the cursor, or there is no whole line, or the last one is a bare newline |
| Locator.OneLineFile | hermes_multitenancy/agent_relay_admin_diag.py:826-831 | In every short file of one line that the cursor covers, the search ends at offset 1, inside the line |
| Locator.TailIsInsideTheLine | hermes_multitenancy/agent_relay_admin_diag.py:826-831 | A file of three bytes shows it |
| Locator.ShortFilesAreUncut | hermes_multitenancy/agent_relay_admin_diag.py:809-831 | A search of a file below 32 000 bytes never uses up its byte budget |
| Locator.LocatedIsSpot | hermes_multitenancy/agent_relay_admin_diag.py:797-831 | However it ended, the search returns a line start, the end of the file or a place inside an id-bearing line, on any file |
| PositionMemo.PutThenGet | hermes_multitenancy/agent_relay_admin_diag.py:240-256 | A stored position is found again, and storing disturbs no other key except the oldest of a full memo |
| PositionMemo.Put | hermes_multitenancy/agent_relay_admin_diag.py:250-256 | The memo never exceeds 64 entries and holds nothing but old entries and the new one |
| PositionMemo.Shared.Store | hermes_multitenancy/agent_relay_admin_diag.py:250-256 | The dictionary after the call is the old one with the position put |
| PositionMemo.Shared.Lookup | hermes_multitenancy/agent_relay_admin_diag.py:245-247 | The look-up returns the entry of the key, if any |
| DiagScan.ScanFileTakes | hermes_multitenancy/agent_relay_admin_diag.py:833-948 | Scanning one file takes a prefix of its rows from the start offset, serves the wanted ones in order and leaves the cursor at the furthest; undisturbed, it takes all of them |
| DiagTrace.ReadCharges | hermes_multitenancy/agent_relay_admin_diag.py:671-684 | The bytes of each read go to the page budget, or to the skip budget if its line is unusable |
| DiagTrace.ReadGivesUp | hermes_multitenancy/agent_relay_admin_diag.py:677-684 | A read gives its day up exactly by a line beyond the cap or an unusable one that takes the skipped bytes over 2 MiB |
| DiagTrace.ReadServes | hermes_multitenancy/agent_relay_admin_diag.py:929-948 | A read adds exactly a record row in the window past the cursor, and moves the cursor to the furthest record |
| DiagTrace.ReadCounts | hermes_multitenancy/agent_relay_admin_diag.py:869-928 | Each read counts as unreadable, skipped or unpageable exactly as its line is |
| DiagTrace.ReadGoesOn | hermes_multitenancy/agent_relay_admin_diag.py:867-948 | A read ends the request exactly at a tail in the newest file or when the page is full, ends the file exactly at its end, a tail, a line beyond the cap or too much waste, and else goes on |
| DiagTrace.CorruptIff | hermes_multitenancy/agent_relay_admin_diag.py:671-684 | A day is given up if and only if the request reads a line beyond the cap in it, or an unusable line with which those read so far come to more than 2 MiB; for arbitrary files, before and after the first row past the cursor |
| DiagTrace.NothingCorruptIff | hermes_multitenancy/agent_relay_admin_diag.py:671-684 | No day is given up if and only if no read of the request does so |
| DiagTrace.TruncatedOnlyIf | hermes_multitenancy/agent_relay_admin_diag.py:855-862 | A page is truncated only if it is full or more than its budget was charged |
| DiagPaging.PageIsExact | hermes_multitenancy/agent_relay_admin_diag.py:833-995 | If no read of the request gives a file up, a page holds exactly the rows in the window that lie past the old cursor and not past the one it hands back; a page that is not truncated holds every wanted row |
| DiagPaging.PageKeepsMemo | hermes_multitenancy/agent_relay_admin_diag.py:929-961 | Every request leaves each memo entry just after the line with that id, and at most 64 entries |
| DiagPaging.MemoSurvivesAppend | hermes_multitenancy/agent_relay_admin_diag.py:950-961 | A sound memo stays sound while files only grow and new files appear |
| DiagPaging.MemoAgreesWithSearch | hermes_multitenancy/agent_relay_admin_diag.py:950-961 | With any sound memo and with none a page serves the same rows and is truncated alike whenever neither run hits a byte budget, pages that end at their limit included |
| DiagPaging.PageIsTheFirst | hermes_multitenancy/agent_relay_admin_diag.py:963-995 | A page that meets no budget is the wanted rows cut at its limit, a limit below one acting as one, and is truncated exactly if there are that many |
| DiagPaging.PageReadsBounded | hermes_multitenancy/agent_relay_admin_diag.py:671-961 | One request reads at most page budget + 2 MiB + 2 MiB + (files + 1) MiB, for any file contents |
| DiagFollow.PageMoves | hermes_multitenancy/agent_relay_admin_diag.py:833-995 | Over record lines, with a budget of at least one byte, a truncated page hands back a later cursor that is the id of a row |
| DiagFollow.PagingIsLossless | hermes_multitenancy/agent_relay_admin_diag.py:833-995 | Following `next` returns every wanted row exactly once in id order, and comes to a page without a cursor within one page more than there are rows ahead, for every limit, budget and sequence of sound memos |
| DiagFollow.FollowedIff | hermes_multitenancy/agent_relay_admin_diag.py:833-995 | Following `next` yields a row if and only if it stands on a whole line of some file, is a record with a time and a well-formed id, lies in the window and is past the cursor |
| DiagFollow.PageRemembers | hermes_multitenancy/agent_relay_admin_diag.py:929-961 | A page over record lines leaves the end of the row at its cursor in the memo |
| DiagFollow.LoneFollowerLosesNothing | hermes_multitenancy/agent_relay_admin_diag.py:833-995 | A follower whose pages pass the memo on, from the empty cursor and any sound memo, loses nothing and comes to an end, with nothing assumed of the search |
| DiagStall.StallsIff | hermes_multitenancy/agent_relay_admin_diag.py:833-995 | For arbitrary files, a page is truncated without a cursor if and only if what the page budget is charged before the first row past the cursor exceeds it |
| DiagStall.StalledServesNothing | hermes_multitenancy/agent_relay_admin_diag.py:833-995 | Such a page of a sound log also serves nothing |
| DiagStall.IgnoredLineStalls | hermes_multitenancy/agent_relay_admin_diag.py:912-917 | A leading line of an ignored kind that exceeds the budget is an instance |
| DiagStall.PaidWalkIsLossless | hermes_multitenancy/agent_relay_admin_diag.py:833-995 | Whatever kinds of lines there are, a walk whose pages' charges stay within the budget and whose reads give no file up returns every wanted row exactly once in order, and ends |
| DiagReader.Scanner.ChargeSkip | hermes_multitenancy/agent_relay_admin_diag.py:677-684 | The object's charge of skipped bytes, cumulative over the request, is the scan function's |
| DiagReader.Scanner.Advance | hermes_multitenancy/agent_relay_admin_diag.py:686-696 | The cursor becomes the larger of the old one and the row's id; nothing else changes |
| DiagReader.Scanner.OnLine | hermes_multitenancy/agent_relay_admin_diag.py:887-948 | What a whole line does to the object's fields is what it does to the scan state |
| DiagReader.Scanner.ReadAt | hermes_multitenancy/agent_relay_admin_diag.py:854-948 | One bounded read and its consequences on the fields are those of the scan state |
| DiagReader.Scanner.ScanFile | hermes_multitenancy/agent_relay_admin_diag.py:852-948 | The loop over one file reaches the state the recursive scan defines |
| DiagReader.Scanner.StartOf | hermes_multitenancy/agent_relay_admin_diag.py:950-961 | The start is the remembered offset if a newline precedes it, else the search's result, charged alike |
| DiagReader.Scanner.SelectFiles | hermes_multitenancy/agent_relay_admin_diag.py:715-742 | The loop keeps exactly the files that window and cursor leave in, in order |
| DiagReader.Scanner.ReadPage | hermes_multitenancy/agent_relay_admin_diag.py:963-995 | The request ends in the state, memo and continuation about which the paging theorems speak |
| Billing.CallsAreBounded | hermes_multitenancy/billing_credentials.py:510-753 | One call makes at most 2 ensure, 3 ack and 3 probe calls, whatever is answered |
| Billing.RenewalIsCrashSafe | hermes_multitenancy/billing_credentials.py:551-753 | From a credential that outlives the call, for all answers and clocks: after every single write the row works or carries a previous credential that works, nested once and only while the probe is pending, if and only if none of the acknowledgements the call asked for was answered with `credential_gone` |
| Billing.RenewalIsSafeAtStart | hermes_multitenancy/billing_credentials.py:551-753 | The same equivalence with no assumption on granted lifetimes, judged at the time the call began |
| Billing.GoneDropsTheCredential | hermes_multitenancy/billing_credentials.py:725-730 | One acknowledgement answered with gone deletes the row, whatever it held |
| Billing.PassingProbeSafeIff | hermes_multitenancy/billing_credentials.py:695-753 | After a passing probe the first row written is safe if and only if the pending credential was unexpired and not marked invalid |
| Billing.ServedIsStored | hermes_multitenancy/billing_credentials.py:510-753 | Whatever the answers, a served credential is the stored one, probed, not marked invalid and unexpired when the call began |
| Billing.RequestPathIsReadOnly | hermes_multitenancy/billing_credentials.py:510-550 | Without minting, neither row nor broker is touched, and a credential is served exactly if it is valid for the payer and usable |
| BillingDuty.KeptOrRenewed | hermes_multitenancy/billing_credentials.py:554-606 | With nothing pending and no forced reason the stored credential is served and the broker left alone if and only if it is not marked, unexpired, and an employee key, or has more than 30 days less the jitter, or has an unelapsed retry time; otherwise the broker is asked, with the right reason and the generation in hand |
| BillingDuty.ForcedAsks | hermes_multitenancy/billing_credentials.py:559-606 | A forced reason always asks, with that reason |
| BillingDuty.MissingAsks | hermes_multitenancy/billing_credentials.py:589-606 | Without a row the broker is asked for a first credential |
| BillingDuty.StrangerRefused | hermes_multitenancy/billing_credentials.py:551-552 | A row that is not this payer's, or not on the enforced account, is refused and left as it is |
| BillingDuty.MintedIsStored | hermes_multitenancy/billing_credentials.py:648-668 | A fresh key is first written with the answer's secret, id, version, expiry and account, probe and acknowledgement outstanding, the current credential beside it |
| BillingDuty.MintedIsServed | hermes_multitenancy/billing_credentials.py:648-753 | Probed and acknowledged, it is served and stored alone with nothing pending |
| BillingDuty.ImproperIsRefused | hermes_multitenancy/billing_credentials.py:624-656 | Any other answer that is not a proper "unchanged" is refused without a write |
| BillingDuty.UnchangedIsKept | hermes_multitenancy/billing_credentials.py:631-646 | "Unchanged" keeps the credential exactly if it describes the one in hand and that was not the trouble |
| BillingDuty.FailureLeadsTo | hermes_multitenancy/billing_credentials.py:607-622 | A failing broker leaves a renewal going for six hours on a working credential; otherwise the run degrades exactly for 502, 503 and 504 that are no conflict, broken answer or misconfiguration |
| BillingDuty.FailedProbe | hermes_multitenancy/billing_credentials.py:695-717 | A failed probe falls back on a working previous credential with six hours' back-off, or drops the row |
| BillingDuty.AckIsAsked | hermes_multitenancy/billing_credentials.py:721-726 | A probed generation is acknowledged unless that is done or backing off |
| BillingDuty.AckLeadsTo | hermes_multitenancy/billing_credentials.py:725-753 | A good acknowledgement ends the handshake, gone deletes the row, a retryable failure puts it off for five minutes |
| BillingDuty.RequestServesIff | hermes_multitenancy/billing_credentials.py:519-550 | The request path serves exactly a fitting row that is proven, unmarked and unexpired, and asks nobody |
| BillingManager.Manager.FinishPending | hermes_multitenancy/billing_credentials.py:690-753 | The step-by-step method leaves exactly the row, writes and call counts of the specified transition |
| BillingManager.Manager.AskBroker | hermes_multitenancy/billing_credentials.py:596-688 | One ensure call and its consequences match the specified transition |
| BillingManager.Manager.EnsureLocked | hermes_multitenancy/billing_credentials.py:510-688 | The recursive method, with the remaining reissues as its measure, matches the specified transition |
| BillingManager.Manager.ServeStored | hermes_multitenancy/billing_credentials.py:510-550 | The request path matches its specification |
| BillingRaces.MarkTouchesOnlyItsKey | hermes_multitenancy/billing_credentials.py:473-508 | In every interleaving `mark_invalid` changes the row only while it carries the reported key and the generation the change was computed from |
| BillingRaces.MarksAtMostOnce | hermes_multitenancy/billing_credentials.py:473-508 | In every interleaving it writes at most once |
| BillingRaces.MarkIsFaithfulIff | hermes_multitenancy/billing_credentials.py:473-508 | In every interleaving, at the first attempt and at the retry, a write that takes place equals marking the row as it stands if and only if, apart from the mark, the row is what it was when that attempt loaded it |
| BillingRaces.UndisturbedMark | hermes_multitenancy/billing_credentials.py:473-491 | Undisturbed, exactly the reported row gets the mark, and keeps every other field |
| BillingRaces.RetryMarks | hermes_multitenancy/billing_credentials.py:492-505 | After a rewrite under the same key the retry marks the row as it stands; under another key nothing is touched |
| BillingRaces.MarkCanUndoAnAck | hermes_multitenancy/billing_credentials.py:473-508 | An acknowledgement recorded between load and write is undone |
| BillingRaces.AdoptionIsSound | hermes_multitenancy/billing_credentials.py:354-430 | An adopted key is usable for at least a day, is the payer's, is a new generation and stays on the verified account |
| BillingRaces.AdoptedIff | hermes_multitenancy/billing_credentials.py:354-430 | A key is adopted if and only if it is this payer's, verified, lives two days, moves no verified account, has a profile and works; what is stored is its secret, alias, lifetime and account, one version up, nothing pending |
| BillingRaces.RollbackUndoesOwnWrite | hermes_multitenancy/billing_employee_key.py:502-557 | In every interleaving the rollback changes the row only while it carries the generation this call wrote earlier in the run |
| BillingRaces.RollbackRestoresIff | hermes_multitenancy/billing_employee_key.py:502-557 | In every interleaving, a rollback that takes place restores what the binder's own write had replaced if and only if that is what its first read found |
| BillingRaces.BindingStores.Adopt | hermes_multitenancy/billing_credentials.py:354-430 | The vault takes the adopted credential, which is the issued key field by field, or stays as it was |
| BillingRaces.BindingStores.StoreBinding | hermes_multitenancy/billing_employee_key.py:502-557 | With no other writer both stores hold the issued key field by field or both are exactly as before, and which of the two is determined |
| KeySweep.AttemptsBounded | hermes_multitenancy/billing_employee_key.py:440-499 | A pass asks for at most `max_issues` keys, failed attempts included, and puts nobody off before the cap is reached |
| KeySweep.SweepIsolates | hermes_multitenancy/billing_employee_key.py:440-499 | Over distinct payers, whoever was issued a key has it in both stores and everybody else, failed members included, has exactly what was there before |
| KeySweep.FateMeans | hermes_multitenancy/billing_employee_key.py:440-499 | Each member's fate is what its own row and replies say: current, put off, failed at which stage, or issued, with the refresh lead and the conditions of storing spelt out |
| KeySweep.IssuedHoldsItsKey | hermes_multitenancy/billing_employee_key.py:440-557 | Whoever was issued a key holds that very key in both stores, nothing pending |
| KeySweep.PassServes | hermes_multitenancy/billing_employee_key.py:352-499 | Whatever the outside answers and whenever it does, at every time up to a day after the pass exactly as many fewer payers need a key as were issued one |
| KeySweep.CooperativePass | hermes_multitenancy/billing_employee_key.py:440-499 | If everybody can be served, a pass issues as many keys as the cap allows or leaves nobody who was due when it began, and nothing fails |
| KeySweep.PassesConverge | hermes_multitenancy/billing_employee_key.py:440-499 | Over passes within a day, each decision at its own time, k passes leave of those due at the beginning at most the number by which those due by the end exceed k times the cap, so nobody once the caps suffice |
| KeySweep.PassesNeverHarm | hermes_multitenancy/billing_employee_key.py:440-499 | However badly the outside answers, at no time whatsoever does a series of passes leave more payers in need than there would have been without it |
| KeySweep.RenewedIsCurrent | hermes_multitenancy/billing_employee_key.py:352-369 | A stored key stays outside its own refresh window for at least a day |
| KeySweep.Serve | hermes_multitenancy/billing_employee_key.py:463-499 | One member's fate and stores, composed from the decision, `store_binding` and the event callback, are the specified ones |
| KeySweep.Sweep | hermes_multitenancy/billing_employee_key.py:440-499 | The counters say how many members met each fate and add up to those checked plus those whose issued callback raised; failures name members; a callback that raises on a failure ends the pass with no result; the stores are those of the pass |
| RelayEnroll.RunKeeps | hermes_multitenancy/agent_relay_store.py:174-281 | In every run the sealed token is present exactly while completed, tokens are minted before expiry, no two enrolments share a state or token, and what is left of a row has only moved forward |
| RelayEnroll.StepMovesOnce | hermes_multitenancy/agent_relay_store.py:174-281 | One call moves a status only from pending to authorizing or expired, from authorizing to completed or failed, or from completed to claimed, and adds only pending rows |
| RelayEnroll.StatusesArePaths | hermes_multitenancy/agent_relay_store.py:174-281 | In every run each row goes from status to status by such moves, one at a time |
| RelayEnroll.MintedWasBegun | hermes_multitenancy/agent_relay_store.py:191-245 | In every run a token is minted only after `begin_enrollment` succeeded for its state |
| RelayEnroll.EmptyIsSound | hermes_multitenancy/agent_relay_store.py:144-160 | The empty store satisfies the invariant |
| RelayEnroll.CreateDoes | hermes_multitenancy/agent_relay_store.py:174-189 | A new enrolment is pending for ten minutes without a token |
| RelayEnroll.BeginDoes | hermes_multitenancy/agent_relay_store.py:191-200 | Authorization begins exactly for a pending, unexpired enrolment with this state |
| RelayEnroll.CompleteDoes | hermes_multitenancy/agent_relay_store.py:211-245 | A token is minted exactly for an open id with a name and an authorizing, unexpired enrolment, active, for that actor, sealed in that row alone |
| RelayEnroll.UnknownStateDoesNothing | hermes_multitenancy/agent_relay_store.py:191-245 | An unknown state begins and mints nothing |
| RelayEnroll.ClaimDoes | hermes_multitenancy/agent_relay_store.py:247-281 | A completed enrolment hands its token out, an overdue pending one expires, any other shows its status |
| RelayEnroll.FailDoes | hermes_multitenancy/agent_relay_store.py:202-209 | Only an authorizing enrolment with this state fails |
| RelayEnroll.PruneDoes | hermes_multitenancy/agent_relay_store.py:875-888 | A completed enrolment goes after thirty days, any other a day after its expiry, and no token does |
| RelayEnroll.MintsAtMostOnce | hermes_multitenancy/agent_relay_store.py:211-245 | No state is completed twice in any run, whatever is pruned in between |
| RelayEnroll.HandsOutAtMostOnce | hermes_multitenancy/agent_relay_store.py:247-281 | No enrolment hands its token out twice in any run |
| RelayEnroll.ClaimSpends | hermes_multitenancy/agent_relay_store.py:247-281 | A claim hands out exactly the token minted for that enrolment and leaves nothing to claim |
| RelayEnroll.EnrollmentStore.CreateEnrollment | hermes_multitenancy/agent_relay_store.py:174-189 | A pending row with a ten-minute life is added under a new id and state; nothing else changes |
| RelayEnroll.EnrollmentStore.BeginEnrollment | hermes_multitenancy/agent_relay_store.py:191-200 | Succeeds exactly for an unexpired pending row with this state, which becomes authorizing |
| RelayEnroll.EnrollmentStore.CompleteEnrollment | hermes_multitenancy/agent_relay_store.py:211-245 | Succeeds exactly for a proper actor and an unexpired authorizing row with this state, which becomes completed with the sealed new token; otherwise no token is left behind |
| RelayEnroll.EnrollmentStore.ClaimEnrollment | hermes_multitenancy/agent_relay_store.py:247-281 | A completed row hands its token out and becomes claimed without it; an overdue pending row becomes expired; any other row only shows its status |
| RelayEnroll.EnrollmentStore.FailEnrollment | hermes_multitenancy/agent_relay_store.py:202-209 | An authorizing row with this state becomes failed; nothing else changes |
| RelayEnroll.EnrollmentStore.Prune | hermes_multitenancy/agent_relay_store.py:875-888 | Only stale enrolments go |
| RelayEnroll.EnrollmentStore.RevokeToken | hermes_multitenancy/agent_relay_store.py:891-899 | A known active token becomes inactive, and nothing else changes |
| RelayMessages.RunKeeps | hermes_multitenancy/agent_relay_store.py:311-776 | In every run each message is backed by an idempotency row, action id and close reason match the card status, a card's text window ends with the card, reply windows only shrink and never become null, tokens keep their actor, and rows change only as allowed; that the fallback is registered for its own card is proved in RelayTraffic |
| RelayMessages.ReservedRowExists | hermes_multitenancy/agent_relay_store.py:311-361 | The insert in `reserve_message` never ignores: the row read back exists, is the caller's and is named by the idempotency row |
| RelayMessages.KeyNamesOneResource | hermes_multitenancy/agent_relay_store.py:311-361 | A (token, key) pair names one resource forever; any later replay changes nothing and returns it or a conflict |
| RelayMessages.TerminalForever | hermes_multitenancy/agent_relay_store.py:614-700 | A failed, actioned, closed or expired card never changes again |
| RelayMessages.ClickEnds | hermes_multitenancy/agent_relay_store.py:666-700 | A successful click happens before expiry on an open card, ends it and records one of its own actions |
| RelayMessages.ClicksAtMostOnce | hermes_multitenancy/agent_relay_store.py:666-700 | At most one click on a card succeeds in any run |
| RelayMessages.ReplyIsAttributed | hermes_multitenancy/agent_relay_store.py:400-445 | A new reply is stored against the one open message of the looked-up tokens that it can mean |
| RelayMessages.AmbiguousIff | hermes_multitenancy/agent_relay_store.py:421-433 | A reply is ambiguous exactly if it names no message and two open messages could be meant, and is then not stored |
| RelayDuty.ReplyDoes | hermes_multitenancy/agent_relay_store.py:400-445 | A new event is stored exactly if one sent message of the tokens with an open window, and with the named parent's id if one is named, can be meant, against that message; else nothing changes |
| RelayDuty.ReplyKeepsToItsParent | hermes_multitenancy/agent_relay_store.py:415-423 | A reply that names its parent is stored with that parent's id or not at all |
| RelayDuty.ClickDoes | hermes_multitenancy/agent_relay_store.py:666-700 | A click counts exactly on a pending unexpired card of one of the tokens with its own nonce, message and action, and records the action |
| RelayDuty.CloseDoes | hermes_multitenancy/agent_relay_store.py:767-776 | A card is closed exactly if it is the token's, pending and unexpired |
| RelayDuty.LookDoes | hermes_multitenancy/agent_relay_store.py:637-651 | Looking expires one's own pending card when due |
| RelayDuty.SendingEnds | hermes_multitenancy/agent_relay_store.py:614-635 | Only a card being sent is finished or failed |
| RelayDuty.ReserveMessageDoes | hermes_multitenancy/agent_relay_store.py:311-361 | A new key gets exactly its idempotency row and a message being sent; a known key its own message or a conflict |
| RelayDuty.ReserveCardDoes | hermes_multitenancy/agent_relay_store.py:530-583 | A new key gets exactly its idempotency row and a card being sent; a known key its own card or a conflict |
| RelayDuty.FinishMessageDoes | hermes_multitenancy/agent_relay_store.py:363-378 | Only a message being sent is finished |
| RelayDuty.RegisterDoes | hermes_multitenancy/agent_relay_store.py:585-612 | The fallback is a sent message with the card's message and expiry, one a key |
| RelayDuty.CloseWindowDoes | hermes_multitenancy/agent_relay_store.py:750-765 | Exactly the open windows of the token's message end now |
| RelayDuty.PruneExpires | hermes_multitenancy/agent_relay_store.py:851-858 | Exactly the pending cards that are due expire |
| RelayDuty.PruneEmpties | hermes_multitenancy/agent_relay_store.py:859-871 | A reply is emptied exactly if its message's window ended a day ago or earlier |
| RelayDuty.LookUpFinds | hermes_multitenancy/agent_relay_store.py:384-398 | An actor's tokens are its own active ones |
| RelayMessages.PruneEmptiesOldReplies | hermes_multitenancy/agent_relay_store.py:851-871 | After any run, a prune at or after window end + 24 h leaves the reply purged and empty |
| RelayMessages.MessageStore.ReserveMessage | hermes_multitenancy/agent_relay_store.py:311-361 | A known key answers with its resource or a conflict and changes nothing; a new key gets an idempotency row and a message row together |
| RelayMessages.MessageStore.FinishMessage | hermes_multitenancy/agent_relay_store.py:363-378 | A message being sent becomes sent under the given message id; nothing else changes |
| RelayMessages.MessageStore.ReserveCard | hermes_multitenancy/agent_relay_store.py:530-583 | A known key answers with its resource or a conflict and changes nothing; a new key gets an idempotency row and a card being sent |
| RelayMessages.MessageStore.RegisterCardMessage | hermes_multitenancy/agent_relay_store.py:585-612 | The text fallback of a card is inserted; under a key that already has a message the insert is refused with an error and changes nothing |
| RelayMessages.MessageStore.FinishCard | hermes_multitenancy/agent_relay_store.py:614-626 | Only a card being sent becomes pending |
| RelayMessages.MessageStore.FailCard | hermes_multitenancy/agent_relay_store.py:628-635 | Only a card being sent becomes failed |
| RelayMessages.MessageStore.CardState | hermes_multitenancy/agent_relay_store.py:637-651 | Looking at a card expires it when due and shows it to its owner only |
| RelayMessages.MessageStore.ActionCard | hermes_multitenancy/agent_relay_store.py:666-700 | With the actor's active tokens, succeeds exactly for a pending unexpired card of one of them with matching nonce, message and offered action, which becomes actioned |
| RelayMessages.MessageStore.CloseCard | hermes_multitenancy/agent_relay_store.py:767-776 | A pending unexpired card of the token becomes closed with the reason, and only then does it succeed; the card shown afterwards is expired first if due |
| RelayMessages.MessageStore.CloseReplyWindow | hermes_multitenancy/agent_relay_store.py:750-765 | Every open window of the caller's message is shortened to now; succeeds exactly if that was one row |
| RelayMessages.MessageStore.AssignReply | hermes_multitenancy/agent_relay_store.py:400-445 | With the actor's active tokens, a known event is not stored again; a new one is stored exactly if one open message of these tokens can be meant; says whether it was ambiguous |
| RelayMessages.MessageStore.TokenIdsForActor | hermes_multitenancy/agent_relay_store.py:384-398 | The active tokens of a well-formed actor, and none for any other |
| RelayMessages.MessageStore.RevokeToken | hermes_multitenancy/agent_relay_store.py:891-899 | An active token becomes inactive, and nothing else changes |
| RelayMessages.MessageStore.Prune | hermes_multitenancy/agent_relay_store.py:851-871 | Due cards expire and replies past retention are emptied |
| RelayTraffic.CallsAreEnabled | hermes_multitenancy/agent_relay.py:738-833 | Every store call a request makes meets the store's assumptions; in particular `create_card` registers a fallback only for its own card and until that expires, on the first attempt and on a replay |
| RelayTraffic.TrafficKeeps | hermes_multitenancy/agent_relay.py:738-833 | However requests interleave and wherever they break off, the store keeps its invariant |
| RelayTraffic.TrafficIsARun | hermes_multitenancy/agent_relay.py:738-833 | The store calls of any traffic form a run of the store, so what is proved of those applies |
| RelayTraffic.TrafficClicksOnce | hermes_multitenancy/agent_relay_store.py:666-700 | At most one click on a card succeeds in any traffic |
| RelayTraffic.TrafficKeepsNames | hermes_multitenancy/agent_relay_store.py:311-361 | A key in use names the same resource after any traffic, and a replay returns it or a conflict |
| RelayTraffic.TrafficIsPruned | hermes_multitenancy/agent_relay_store.py:851-871 | After any traffic, a prune a day past the window leaves the reply purged and empty |
| RelayTraffic.ReplayHeals | hermes_multitenancy/agent_relay.py:748-763 | A replay of a sent card registers a missing fallback with the card's own message and expiry, and is refused harmlessly otherwise |
| RelayTraffic.CreateCardDoes | hermes_multitenancy/agent_relay.py:738-833 | Undisturbed under a new key, the card is pending with the delivered message and a sent message with that id and the card's expiry stands beside it |
| RelayTraffic.RefusedCardFails | hermes_multitenancy/agent_relay.py:781-815 | A rejected card or one without a receipt fails and gets no fallback |
| RelayTraffic.RepliesAreTheActors | hermes_multitenancy/agent_relay_store.py:400-445 | In every run a reply is stored only against a message open at that moment, with that message's id and token, and that is the named parent if one is named; the token was active, and the replying actor's, when the request looked it up |
| RelayTraffic.ClicksAreTheActors | hermes_multitenancy/agent_relay_store.py:666-700 | In every run a click succeeds only before expiry on a card whose token was active, and the clicking actor's, at the look-up |
| RelayTraffic.StillActiveIff | hermes_multitenancy/agent_relay_store.py:384-445 | That token is still active when it is used if and only if nobody revoked it in between, and it is the same actor's either way |
| RelayTraffic.RevokedStillAnswers | hermes_multitenancy/agent_relay_store.py:384-445 | A reply that would be stored is still stored on the same token when that is revoked after the look-up |
| RelayLogs.PageThenRest | hermes_multitenancy/agent_relay_store.py:800-812 | A page is the front of the sorted window, and past its last row lies exactly the rest |
| RelayLogs.PagesAreTheWindow | hermes_multitenancy/agent_relay_store.py:800-812 | Pages from (last ts, last id) concatenate to the whole (ts, id)-sorted window, for any limit of at least 1 and any ties |
| RelayLogs.PagesHold | hermes_multitenancy/agent_relay_store.py:800-812 | The pages hold a row if and only if it lies past the cursor, ties by id, and within the window, in order of time and id |
| RelayLogs.PageIsFirst | hermes_multitenancy/agent_relay_store.py:800-812 | A page is the first rows of what is left, as many as the limit allows |
| RelayLogs.SelectSort | hermes_multitenancy/agent_relay_store.py:800-812 | Filtering by window and cursor commutes with sorting |
| RelayLogs.LogTable.AppendLog | hermes_multitenancy/agent_relay_store.py:778-798 | The row is added under a new, larger id |
| RelayLogs.LogTable.List | hermes_multitenancy/agent_relay_store.py:800-812 | The listing is the sorted window past the cursor, cut at the limit |
| OAuthGrants.RunKeeps | hermes_multitenancy/connector_client_auth.py:248-469 | In every run each approval chain has at most one unconsumed grant and never one beside a request in flight; codes, refresh and access tokens keep the approver's profile, subject and client; none has a scope that the grant it was bought with lacked; grants are only ever consumed |
| OAuthGrants.ScopesOnlyNarrow | hermes_multitenancy/connector_client_auth.py:361-378 | Along every chain of grants scopes never widen again, the client stays the same, and from the code on so do profile and subject |
| OAuthGrants.TokenNarrowsItsChain | hermes_multitenancy/connector_client_auth.py:388-419 | An access token has no scope that any grant on the way to it lacked |
| OAuthGrants.TokensSpeakForTheApprover | hermes_multitenancy/connector_client_auth.py:388-419 | Every access token of a run goes back to one `authorize` call and a later approval of that request: its client is the one that asked, its scopes are among those asked for, its profile and subject are the approving principal's |
| OAuthGrants.RequestDoes | hermes_multitenancy/connector_client_auth.py:248-265 | A request stands for its client and scopes for five minutes |
| OAuthGrants.ApprovalDoes | hermes_multitenancy/connector_client_auth.py:293-311 | An approval turns exactly an unused, unexpired request into a code of two minutes in the principal's name |
| OAuthGrants.ExchangeDoes | hermes_multitenancy/connector_client_auth.py:332-344 | A code buys its pair, five minutes of access and fourteen days to refresh, exactly if it is unused, unexpired, this client's and for the one scope there is |
| OAuthGrants.RefreshDoes | hermes_multitenancy/connector_client_auth.py:361-378 | A refresh token buys a pair exactly for a scope it holds, and is used up also when the scopes are refused |
| OAuthGrants.RevokeDoes | hermes_multitenancy/connector_client_auth.py:383-386 | Revoking marks a live access token or uses up a good refresh token, and nothing else |
| OAuthGrants.MintForgets | hermes_multitenancy/connector_client_auth.py:103-109 | Minting forgets exactly tokens that expired or were revoked more than a day ago |
| OAuthGrants.BuysAtMostOnce | hermes_multitenancy/connector_client_auth.py:332-378 | Each code or refresh value buys at most one token pair in any interleaving |
| OAuthGrants.Provider.Authorize | hermes_multitenancy/connector_client_auth.py:248-265 | A pending grant for the client and its scopes is added under the new value; nothing else changes |
| OAuthGrants.Provider.ConsumeGrant | hermes_multitenancy/connector_client_auth.py:456-469 | A grant is returned exactly if it is usable by this client now, and is then consumed |
| OAuthGrants.Provider.Approve | hermes_multitenancy/connector_client_auth.py:293-311 | Approval is its two steps, consuming the request and storing the code |
| OAuthGrants.Provider.PutGrant | hermes_multitenancy/connector_client_auth.py:421-442 | The successor grant carries the rights in flight |
| OAuthGrants.Provider.IssuePair | hermes_multitenancy/connector_client_auth.py:388-419 | Access and refresh token are issued with the rights in flight, or neither |
| OAuthGrants.Provider.ExchangeAuthorizationCode | hermes_multitenancy/connector_client_auth.py:332-344 | The exchange succeeds exactly for a usable code with scopes to mint, and is its three steps |
| OAuthGrants.Provider.ExchangeRefreshToken | hermes_multitenancy/connector_client_auth.py:361-378 | The rotation succeeds exactly for a usable token and granted scopes; the old token is consumed even when the scopes are refused |
| OAuthGrants.Provider.RevokeToken | hermes_multitenancy/connector_client_auth.py:383-386 | A live access token is revoked, else a refresh token of that value is consumed |
| EnrollLimiter.DecidesAsHistory | hermes_multitenancy/agent_relay.py:254-270 | The limiter admits exactly when the complete history has fewer than 120 admissions in the last minute and fewer than 10 of this address |
| EnrollLimiter.AdmittedIff | hermes_multitenancy/agent_relay.py:229-270 | A request is admitted if and only if fewer than 120 admissions of anybody and fewer than 10 of its address lie in the last 60 seconds, and only then is it added |
| EnrollLimiter.SummaryIff | hermes_multitenancy/agent_relay.py:239-252 | A summary is taken exactly if something was rejected and none was taken in the last 60 seconds |
| EnrollLimiter.NextKeeps | hermes_multitenancy/agent_relay.py:229-270 | Every call keeps the limiter in agreement with the history and the history within both limits |
| EnrollLimiter.TableBounded | hermes_multitenancy/agent_relay.py:254-270 | The per-address table holds at most 120 keys after any call |
| EnrollLimiter.NextAudits | hermes_multitenancy/agent_relay.py:239-252 | Summaries are at least 60 s apart, and reported plus pending rejections are all rejections |
| EnrollLimiter.NextCountsKeys | hermes_multitenancy/agent_relay.py:229-252 | Each summary's number of keys is the number of distinct addresses rejected since the one before, up to 4096 |
| EnrollLimiter.RunKeeps | hermes_multitenancy/agent_relay.py:218-270 | All of this in every run with a monotone clock |
| EnrollLimiter.RateLimiter.AllowLocked | hermes_multitenancy/agent_relay.py:254-270 | The pops, deletions and appends yield the specified state and decision |
| EnrollLimiter.RateLimiter.TakeSummary | hermes_multitenancy/agent_relay.py:239-252 | The line's count, number of keys and last key and the reset counters are the specified ones |
| EnrollLimiter.RateLimiter.Allow | hermes_multitenancy/agent_relay.py:229-237 | One call decides, counts a rejection and takes a due summary, leaving the state the history lemmas speak about |
| AdminLimiter.DecidesAsHistory | hermes_multitenancy/agent_relay_admin.py:231-247 | The limiter decides as the complete history of the key would, and admits exactly below both limits |
| AdminLimiter.RefusedIff | hermes_multitenancy/agent_relay_admin.py:231-247 | A check refuses exactly when the key's admissions in the last second or hour reach a limit, and the wait it returns runs until the oldest of the hour is an hour old |
| AdminLimiter.EvictionChangesNoDecision | hermes_multitenancy/agent_relay_admin.py:231-247 | Dropping stale keys never changes any later decision |
| AdminLimiter.RunKeeps | hermes_multitenancy/agent_relay_admin.py:214-247 | In every run with a monotone clock no key is admitted more than its limit in a second or an hour |
| AdminLimiter.StartIsSound | hermes_multitenancy/agent_relay_admin.py:223-229 | A new limiter agrees with its empty history |
| AdminLimiter.WaitingIsRewarded | hermes_multitenancy/agent_relay_admin.py:231-247 | A caller refused by the hourly limit that waits the returned seconds and sends nothing else is admitted, whatever other callers send in between and whichever keys are evicted |
| AdminLimiter.RateLimiter.Check | hermes_multitenancy/agent_relay_admin.py:231-247 | The rewritten dictionary and the answer are the specified ones |
| Ledger.StripIsExact | hermes_multitenancy/account_ledger.py:154-158 | Trimming removes all surrounding whitespace and nothing else |
| Ledger.RefoldIff | hermes_multitenancy/account_ledger.py:154-158 | A subject read again is itself and is refused if and only if folding made it an open id |
| Ledger.RefoldedIdIsRefused | hermes_multitenancy/account_ledger.py:154-158 | The id `OU_1` passes the first reading and fails the second |
| LedgerVerdict.NothingFoundIff | hermes_multitenancy/account_ledger.py:187-295 | No finding if and only if all rows are live, each layer's subjects are the roster's one to one, the layers agree on open id, profile and account, and no trimmed profile, open id, account or key occurs twice |
| LedgerVerdict.PassIff | hermes_multitenancy/account_ledger.py:161-325 | PASS if and only if the book is clean, and then all layers count the roster and every other count is zero |
| LedgerVerdict.NoMissingField | hermes_multitenancy/account_ledger.py:277-292 | A `missing_` field finding is never reported |
| LedgerVerdict.OrderNeverMatters | hermes_multitenancy/account_ledger.py:161-325 | Reordering the rows of any layer or the roster changes neither a refusal nor any part of the report |
| LedgerVerdict.OneToOneIff | hermes_multitenancy/account_ledger.py:246-255 | One row per roster subject and no stranger is the same as equal multisets of subjects |
| LedgerFindings.FindingIff | hermes_multitenancy/account_ledger.py:187-295 | A subject is reported under a kind if and only if its rows deserve it, each kind spelt out in the fields and positions of the rows |
| LedgerFindings.LayerNumbers | hermes_multitenancy/account_ledger.py:300-308 | A layer's numbers are its live rows and the missing and duplicate subjects reported |
| LedgerFindings.ReportNumbers | hermes_multitenancy/account_ledger.py:296-324 | The other numbers are the unexpected subjects and the findings across identities, and the status is PASS exactly without findings |
| LedgerFindings.RefusedIff | hermes_multitenancy/account_ledger.py:154-188 | The input is refused if and only if the key is short, the roster empty, bad or clashing, or a row unreadable, in plain fields |
| LedgerAudit.ReadRoster | hermes_multitenancy/account_ledger.py:170-186 | The roster is refused exactly if it is empty, malformed or repeats a subject, profile or open id; otherwise each subject maps to its row |
| LedgerAudit.Classify | hermes_multitenancy/account_ledger.py:187-236 | A layer is refused exactly if some row is malformed; otherwise its live rows are kept in order and each other row gives its finding |
| LedgerAudit.Group | hermes_multitenancy/account_ledger.py:238-244 | Each subject's group is its rows in order |
| LedgerAudit.Compare | hermes_multitenancy/account_ledger.py:246-275 | The branches for one subject yield exactly its missing, duplicate and mismatch findings |
| LedgerAudit.Reconcile | hermes_multitenancy/account_ledger.py:246-275 | In whatever order the roster is visited, the findings are those of all its subjects |
| LedgerAudit.MarkShared | hermes_multitenancy/account_ledger.py:277-292 | A finding of sharing is made exactly for the rows whose trimmed value another subject also holds |
| LedgerAudit.Audit | hermes_multitenancy/account_ledger.py:161-325 | The whole procedure refuses or returns exactly the declarative verdict |

## Left out

- HTTP handlers, the Feishu client, events, web wiring and the command line: input and output.
- Encryption, signatures, HMAC and hashing: sealed values open to what was sealed, hashes and random draws are injective and new.
- SQLite, file permissions, path trust and operating-system errors on open or read: tables are maps, locked methods are atomic, listed files can be read.
- JSON parsing and the shape checks on row fields: parsing a line and reading the day out of an id are parameters, arbitrary functions except where a theorem names its assumption (no proper suffix of an id-bearing line parses as an object, which holds of a line that begins with its object; later days have larger ids).
- Row projection, the `gap` flag and the statistics endpoint of the diagnostics module: rows pass through as opaque values.
- Row ids of the log are represented by their rank in string order, since the reader only compares them.
- `run_refresh` and the issuing client: file, network and logging around the modelled sweep. An expiry in the vault is an integer here, so the unreadable one that `needs_new_key` also renews does not occur.
- Reactions, cached card content, usage statistics and the pruning of log rows in the relay store: one-table operations without cross-table claims.
- Client registration, the pending-request view, direct minting for a trusted principal and token verification in the OAuth store: they add no step to an approval chain.
- The ledger's snapshot loading, and the order and fingerprints of the reported findings: the report holds the set of findings, of which the sorted list is a function.
- Employee email comparison ignores case in the source and is equality here; times of the limiters are reals.
- The `until <= since` check of the log endpoint: paging of `list_logs` is proved at the store.
- PagingIsLossless: assumes record lines in id order, each within the line cap, a cursor whose day can be read and pages whose start was remembered or found by an uncut search; for other lines PaidWalkIsLossless and StallsIff say what happens.
- The token table of `RelayMessages` is fed by issuing and revoking alone; that issuing happens at the end of an enrolment is the subject of `RelayEnroll`. Authentication of the caller of `create_card` is not modelled.

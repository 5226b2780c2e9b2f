# Verified model of the OIDC4AC laboratory

A Dafny 4.11 model of the logic of the OIDC4AC laboratory's own repository, with proofs about all
inputs, all runs or all reachable states. `dafny verify dfyconfig.toml` checks it.

## What is modelled

**The request builder** of the workbench page prints a tree of factors and `all_of` / `one_of` groups
to a Claim Request Object and loads such an object back. `Decimals`, `Json` and `JsonText` hold
numbers, values and the JSON text; `TextFields` what a single-line input holds, `Scalars` the lossy
text form of values and lists; `ClaimsForm` the form, building and loading with every thrown error;
`Building` and `Loading` say of every form and every text, switch by switch and field by field, what
is built and what is shown, and which error comes first; `Tree` and `Workbench` are the page as an
object that changes in place, with every button's effect by places. The main result is an exact domain
(`ExactDomain`, from `Canonical`, `Suggestions`, `Arrangement`, `LoadThenBuild` and `Converse`): a visit
to the builder returns a claims object unchanged if and only if it is canonical and its rows can be
shown. `Fixpoint` does the same for build, load, build, `Witnesses` has concrete inputs at the edges of
both domains, and `Truth` shows that building and reordering keep the meaning of an expression.

**The benchmark**: `Schedule` and `Fairness` are the balanced schedule and its guarantee,
`Measurement` the loop that fills the sample tables, `Analysis` the pairing by round,
`OrderStatistics`, `Means` and `Bootstrap` the statistics, `Conservation` what the report adds up to.
The schedule of one program is what makes the lookups of the other succeed; `AnalysisTotal` and
`MeasuredChain` prove that across the two files.

**The email-code authenticator**: `EmailAuthenticator` has the two note stores, the code and the five
minutes; `EmailHistory` proves refinement to one optional code, an exact description of every answer
by the log, safety and the send rate over whole histories.

**The relying party**: `Caches` has the two caches with records shared by reference; `RelyingParty`
lets any number of requests interleave at every lock section, clock reading, exchange and unlocked
access, with monotone time and fresh identifiers; `Redemption` proves what all interleavings keep, `Threads`
that every entry of the log is told by the steps of one request, and `WholeRequests` what a request
does when it is alone. `Totp`, `BitArithmetic` and `Codes` are the time-based codes of the helper page
and of the scenario runner.

**Two rewrites**: `Fixtures` is the derivation of the benchmark realms, `FormParser` the streaming
parser of login forms.

## What the proofs say that the documentation does not

- The page accepts any name for a property or a metadata row, but `__proto__` names the prototype of
  the object being filled: such a row is lost without an error (`Witnesses.PrototypeNameLost`), unless
  an earlier row of that name was only requested: its null takes the prototype away, the later row
  becomes a member, and the next load and build loses that (`Witnesses.RepeatedPrototypeLost`).
- Claims with a property or metadata member named `constructor` cannot be loaded when the issuer does
  not advertise that name for the method: listing its suggestions throws
  (`Witnesses.ConstructorNotLoaded`) and can leave a part of the tree (`Witnesses.PartialTree`).
- Values that are strings in the JSON and look like JSON text (`"12"`, `"true"`, `"null"`), have blank
  edges, hold a line break or are empty come back as something else
  (`Witnesses.NumeralBecomesNumber`); `Scalars.Stable` is the exact condition, and the builder's own
  output is a fixpoint only when it holds (`Fixpoint.BuildLoadBuild`).
- Two refreshes of one result may interleave between the unlocked read and the unlocked write of the
  refresh token, and then an answer without a token puts an older token back
  (`WholeRequests.RotationLost` has such runs, `Redemption.WriteBack` the exact condition).
- Pending authorizations expire only when some request prunes: a callback does not, so a late callback
  succeeds if no other request came (`WholeRequests.CallbackAlone`).
- `without_ids` and `plain` commute wherever `plain` succeeds; the converse has one exception, a
  `clients` member that is an object of identifiers only (`Fixtures.RewritesCommute`).

## Model

| member | source | states |
|---|---|---|
| ExactDomain.ReturnsExactlyCanonical | test-client/templates/home.html:333-387 | For every parsed claims object, whatever the form held before and whatever the issuer advertises: loading it and building again gives the same JSON if and only if the object is canonical (non-empty groups of one operator, the same details in each requested location, no `essential: false`, no empty metadata or properties, trimmed non-empty one-line names and identifiers other than `__proto__`, stable scalars) and no section in it holds a member `constructor` that the issuer does not advertise |
| LoadThenBuild.CanonicalClaimsReturn | test-client/templates/home.html:333-387 | The same, constructively: a canonical claims object is built into exactly its arrangement in the order the builder writes members, or its load fails at a row whose suggestions cannot be listed |
| Suggestions.ShownIffPlaced | test-client/templates/home.html:173-265 | The nodes of a canonical expression can be appended to the form exactly when no section under it holds an unadvertised `constructor`: adding a row looks its name up among the advertised ones, and the lookup of that name finds a function |
| Fixpoint.BuildLoadBuild | test-client/templates/home.html:333-387 | Any form that builds, with any roots, operator, repeated row names and options, loaded into any other form and built again gives exactly the same JSON if and only if the scalars that were built are stable, no section that was built has a member `__proto__` and none an unadvertised `constructor`; the untouched root operator of the other form cannot change it |
| Fixpoint.TextFixpoint | test-client/templates/home.html:344-387 | The same through the text area: apply, load, apply leaves the text unchanged if and only if the same condition holds of the claims in it |
| Fixpoint.NodeBuilt | test-client/templates/home.html:271-331 | Whatever a node holds, what it is built into is well formed, in the order of the builder, and canonical exactly when its scalars are stable and no section in it has a member `__proto__` |
| Canonical.ExpressionReturns | test-client/templates/home.html:326-370 | Induction over nested groups and factors: the nodes that a canonical expression describes are built into the same expression |
| Canonical.FactorReturns | test-client/templates/home.html:271-365 | The factor that canonical JSON (identifier, time, metadata and property rows) describes is built into the same JSON |
| Canonical.CanonicalRowReturns | test-client/templates/home.html:306-359 | A canonical constraint loads as a row that is built into the same constraint, in each of the five modes |
| Converse.ConstraintConverse | test-client/templates/home.html:306-359 | A constraint that comes back the same from its row was canonical |
| ExactDomain.ExpressionConverse | test-client/templates/home.html:326-370 | An expression that comes back the same from the form was canonical, at any nesting |
| Witnesses.PrototypeNameLost | test-client/templates/home.html:296-302 | A concrete factor outside the domain: a property named `__proto__` loads as a row, and the null assigned under that name sets a prototype and leaves no member |
| Witnesses.RepeatedPrototypeLost | test-client/templates/home.html:296-302 | A second row `__proto__` after such a one is built as a member, which the next load and build loses |
| Witnesses.ConstructorNotLoaded | test-client/templates/home.html:173-179 | Concrete canonical claims with a property `constructor`: the load throws and leaves an empty tree unless the issuer advertises that name for the method |
| Witnesses.PartialTree | test-client/templates/home.html:253-265 | When a factor of a group fails in this way, the group stays in the form with the children before that factor |
| Witnesses.NumeralBecomesNumber | test-client/templates/home.html:351 | The string "12" comes back as the number 12 |
| Arrangement.SameExpression | test-client/templates/home.html:271-331 | Writing a canonical expression in the order of the builder does not change what it says |
| LoadThenBuild.LoadIgnoresFlag | test-client/templates/home.html:360-382 | The `essential` flag merged next to an expression is invisible to the load of that expression |
| Scalars.ScalarRoundTrip | test-client/templates/home.html:123-127 | Shown in a text input and parsed again, a value is itself exactly when it is not a string, or a non-empty trimmed string without line breaks that is not itself JSON text |
| Scalars.TrimExact | test-client/templates/home.html:123-127 | Trimming takes off white space at both ends and nothing else |
| Scalars.LiteralShrinks | test-client/templates/home.html:126 | Text that parses to a string is never the text of that string: the decoded string is strictly lighter |
| Scalars.ParseWeight | test-client/templates/home.html:126 | Printing back what was parsed never weighs more than the text, the measure behind the converse directions |
| Scalars.ListRoundTrip | test-client/templates/home.html:312-317 | The comma-joined list of `values`, shown in a text input, is read back as the same list exactly when it is not empty and every element is stable and its text free of commas |
| TextFields.PrintedOneLine | test-client/templates/home.html:351 | `JSON.stringify` without an indent writes no line break, so a text input shows all of it |
| Scalars.ListWithoutLoss | test-client/templates/home.html:314-316 | A list of the same length and no less weight leaves no room for a comma lost inside an element |
| JsonText.TextRoundTrip | test-client/templates/home.html:347 | `JSON.parse` undoes `JSON.stringify`, compact or indented, on every value without repeated names |
| Decimals.NumberRoundTrip | test-client/templates/home.html:351 | A number printed by the ECMAScript layout is scanned back exactly, in front of any text that may follow it |
| Decimals.ExponentShown | test-client/templates/home.html:351 | A number is printed with an exponent exactly when its size is 10^21 or more, or less than 10^-6 |
| Truth.NodeTruth | test-client/templates/home.html:326-331 | Under every truth assignment to the leaves, a node and the JSON it is built into agree, with `all_of` as conjunction and `one_of` as disjunction |
| Truth.ManyRootsTruth | test-client/templates/home.html:333-338 | The details of a form with several roots hold exactly when the forest holds under its root operator |
| Truth.SingleRootTruth | test-client/templates/home.html:337 | A single root is merged in: the details hold exactly when it does, and the root operator changes nothing |
| Truth.MovesKeep | test-client/templates/home.html:146-154 | Any sequence of move-up and move-down steps at any depths keeps the multiset of leaves and the truth of the forest |
| Truth.DownUndoesUp | test-client/templates/home.html:148-153 | Moving a node up and then, from its new place, down again restores the tree |
| Tree.AppendExact | test-client/templates/home.html:235-268 | Appending to a container adds exactly the leaves of the node, puts it last there, keeps the operators above and every other place; without such a container nothing changes |
| Tree.RemoveExact | test-client/templates/home.html:147 | Removing takes exactly the leaves of the node at the path, moves its later siblings up, keeps the operators above and every other place; without such a node nothing changes |
| Tree.RemoveUndoesAppend | test-client/templates/home.html:147-267 | Removing a node that was just added in any container restores the tree |
| Workbench.FactorExpression | test-client/templates/home.html:271-304 | The step-by-step filling of local objects, with its five thrown errors, computes the factor expression of the specification |
| Workbench.AddSection | test-client/templates/home.html:289-301 | The loop over rows: the first bad row throws, a repeated name keeps its place and its last value, and `__proto__` sets the prototype for as long as the object has one |
| Workbench.NodeExpression | test-client/templates/home.html:326-331 | Children are built in document order and the first error is the one thrown |
| Workbench.Page.AddFactor | test-client/templates/home.html:235-251 | A default factor stands last in the container at the path; the leaves are the old ones and that factor, and every other place is as it was |
| Workbench.Page.AddGroup | test-client/templates/home.html:253-265 | The same for a group that holds one default factor |
| Workbench.Page.RemoveNode | test-client/templates/home.html:147 | Exactly the leaves of the node at the path are gone, its later siblings moved up, and every other place is as it was |
| Workbench.AppendNode | test-client/templates/home.html:235-269 | Succeeds exactly when every row under the node can be shown; a failing group stays with what was appended to it before, a failing factor does not |
| Workbench.AppendNodes | test-client/templates/home.html:262 | The children of a group, appended in order until one fails |
| Tree.MoveExact | test-client/templates/home.html:146-154 | By places: after a move-up or move-down the two siblings have traded places, each with everything below it, the groups above keep their operators and every other place is as it was; at an edge or on a missing path nothing changes |
| Workbench.Page.Move | test-client/templates/home.html:146-154 | The same of the page, whose form keeps its leaves and its truth |
| Building.NodeExact | test-client/templates/home.html:271-331 | A node becomes the JSON it shows, member by member (identifier, time, rows by mode, children in order under the operator), or the first error in document order is thrown |
| Building.BuiltIffGood | test-client/templates/home.html:271-331 | A node can be built exactly when no group in it is empty, every identifier and row name is there, every maximum age is a non-negative integer and every row has what its mode needs |
| Building.TimeExact | test-client/templates/home.html:275-288 | The execution time is asked for by its switch or by a maximum age alone, as null or with the flag and the age; it fails exactly for an age that is no non-negative integer |
| Building.SectionExact | test-client/templates/home.html:289-302 | Under each name stands what the last row of that name shows (`__proto__` is such a name only after a row that set the prototype to null), or the error of the first bad row is thrown |
| Building.FormExact | test-client/templates/home.html:333-342 | The claims ask in the chosen locations, and nowhere else, for null or for the flag with the one root merged in or all roots under the operator; or the error is that of the first bad node |
| Workbench.Page.Build | test-client/templates/home.html:333-342 | Fills details and claims step by step into exactly that |
| Workbench.Page.Apply | test-client/templates/home.html:344-349 | Writes the built text, or raises the alert of the error and leaves the text |
| Loading.PropertyRowShows | test-client/templates/home.html:207-230 | The row of a constraint has its mode by shape, its texts, and the essential switch ticked exactly when the member `essential` is there with a value other than null, false, 0 and the empty string |
| Loading.FactorLoads | test-client/templates/home.html:235-250 | A factor shows the identifier (or the default one), the time switches and maximum age under the rules of `&&`, and one row for each metadata entry but the time and for each property, in order; it loads exactly when it names a method and all its constraints can be shown |
| Loading.NodeLoads | test-client/templates/home.html:366-370 | An expression loads exactly when every factor in it does, and its node shows it: groups with their children in order, an empty group with one default factor; otherwise the error is that of the first factor in document order: its method, then its first bad metadata, then its first bad property |
| Loading.LoadExact | test-client/templates/home.html:372-387 | After a load without error the tree shows the details of the ID Token, or else of UserInfo, the claim switch is ticked exactly when `essential` is there with a value other than null, false, 0 and the empty string, and the locations are those that ask; each error is named with exactly what it leaves of the form |
| Workbench.Page.Load | test-client/templates/home.html:372-387 | The step-by-step load does exactly that, or alerts that the text is no JSON and changes nothing |
| OrderStatistics.PercentileExact | evaluation/benchmark/analyze.py:36-41 | With k + t as the position, the percentile is the k-th value of any sorted order of the samples, moved by t towards the next |
| OrderStatistics.PercentileBounds | evaluation/benchmark/analyze.py:36-41 | Indices stay in range and the percentile lies between any bounds of the samples, for every fraction in [0, 1] |
| OrderStatistics.PercentilePermutation | evaluation/benchmark/analyze.py:36-41 | The percentile does not depend on the order of the samples |
| OrderStatistics.PercentileMonotone | evaluation/benchmark/analyze.py:36-41 | A larger fraction never gives a smaller percentile, across segment boundaries too |
| OrderStatistics.PercentilePointwise | evaluation/benchmark/analyze.py:36-41 | Raising samples pointwise never lowers the percentile |
| OrderStatistics.PercentileShift | evaluation/benchmark/analyze.py:36-41 | Adding c to every sample adds exactly c to the percentile |
| OrderStatistics.Rank | evaluation/benchmark/analyze.py:37 | The k-th sample in order is at most v exactly when more than k samples are |
| OrderStatistics.OrderMonotone | evaluation/benchmark/analyze.py:37-41 | Every order statistic follows a pointwise rise of the unsorted samples |
| OrderStatistics.MedianIsHalf | evaluation/benchmark/analyze.py:73-74 | The median is the percentile at one half, so it never exceeds the reported 95th percentile |
| Bootstrap.BootstrapInterval | evaluation/benchmark/analyze.py:51-57 | For the given draws the loop computes the 2.5th and 97.5th percentiles of the means of the two-level resamples |
| Bootstrap.IntervalEnds | evaluation/benchmark/analyze.py:57 | The ends stand one fortieth and thirty-nine fortieths of the way through the sorted resampled means |
| Bootstrap.ResampledTotal | evaluation/benchmark/analyze.py:54-56 | A resampled mean times the number of picked values is the total of the differences at the drawn indices |
| Bootstrap.IntervalMonotone | evaluation/benchmark/analyze.py:51-57 | For one sequence of draws, raising differences pointwise lowers neither end |
| Bootstrap.IntervalShift | evaluation/benchmark/analyze.py:51-57 | Adding c to every difference moves both ends by exactly c |
| Bootstrap.IntervalBounds | evaluation/benchmark/analyze.py:51-57 | The low end is at most the high end and both lie between any bounds of the differences |
| Schedule.ScheduleSlots | evaluation/benchmark/timing-benchmark.py:183-195 | The loops over kinds, conditions and cycling iterators compute the schedule of the specification, or fail exactly when a kind includes nobody |
| Schedule.DrawCycle | evaluation/benchmark/timing-benchmark.py:193-194 | The cycling iterator draws place i modulo the group size at its i-th draw |
| Schedule.GroupConditions | evaluation/benchmark/timing-benchmark.py:188-190 | The `setdefault` loop fills the instances in order of first appearance |
| Schedule.GroupedServes | evaluation/benchmark/timing-benchmark.py:188-190 | The dictionary of instances holds exactly the instances that serve somebody, each with the conditions it serves, in order |
| Fairness.InstancesBalanced | evaluation/benchmark/timing-benchmark.py:183-195 | Every instance with an included condition gets exactly the common number of cycles of a kind, and every other instance none |
| Fairness.LargestGroup | evaluation/benchmark/timing-benchmark.py:191 | That number is the size of the largest group of included conditions that share an instance |
| Fairness.ConditionShare | evaluation/benchmark/timing-benchmark.py:192-194 | The condition at place i of a group of n gets target / n cycles, one more exactly when i < target mod n, and at least one |
| Fairness.SharesOfInstance | evaluation/benchmark/timing-benchmark.py:192-194 | Any selection of slots of one kind and instance is counted by the shares of the places of its group |
| Fairness.SlotMembers | evaluation/benchmark/timing-benchmark.py:187 | Slots are for given conditions, and conditions without login get no login slot |
| Fairness.TotalSlots | evaluation/benchmark/timing-benchmark.py:183-195 | The total is, summed over the kinds, the number of busy instances times the common number of cycles |
| Fairness.EveryoneMeasured | evaluation/benchmark/timing-benchmark.py:183-195 | Every condition has a slot of every kind, but for the login kind only if it has a login |
| Measurement.Measure | evaluation/benchmark/timing-benchmark.py:263-280 | The measurement loop fills each table with exactly the samples of its key, by round and position, and never looks up a missing table |
| Measurement.TableExact | evaluation/benchmark/timing-benchmark.py:266-280 | A sample is in a table exactly when its round ran a slot of that kind and condition at its position, and it carries the client and server time measured there |
| Measurement.TableCount | evaluation/benchmark/timing-benchmark.py:266-280 | Every round adds to a table as many samples as the schedule has slots for its key, whatever the permutation |
| Measurement.TablesComplete | evaluation/benchmark/timing-benchmark.py:263-280 | After N rounds every table has N times its slot count of samples and at least one in each of the rounds 0 to N - 1, and none in any other |
| Analysis.RoundMeansOf | evaluation/benchmark/analyze.py:44-48 | The dictionary of lists has a mean for exactly the rounds with samples, and that mean times their number is the total of their client times, or of their server times |
| Analysis.PairedExact | evaluation/benchmark/analyze.py:84 | The differences stand in rising order of the rounds of the first condition, each the second mean minus the first; the pairing fails exactly when the second condition lacks one of those rounds |
| Analysis.PairRuns | evaluation/benchmark/analyze.py:80-84 | The loop over runs computes the paired differences, or fails exactly where a lookup misses |
| Analysis.MeasureGivesRun | evaluation/benchmark/timing-benchmark.py:263-280 | The tables that the measurement loop returns are, for each kind, a measured run as the analysis needs it |
| Analysis.MeasureRun | evaluation/benchmark/timing-benchmark.py:263-280 | The measurement loop followed by the selection of one kind returns a measured run |
| Analysis.AnalysisTotal | evaluation/benchmark/analyze.py:77-84 | With measured runs the round means of every included condition have exactly the keys 0 to N - 1, so no paired lookup misses, and difference i is the difference of the means of round i, each of which times the number of its samples is their total |
| Conservation.Telescopes | evaluation/benchmark/analyze.py:77-92 | The unrounded step means along a chain sum to the mean paired difference of its two ends |
| Conservation.ReportedStepsTelescope | evaluation/benchmark/analyze.py:87 | The reported, rounded steps miss that difference by at most half a thousandth for each step |
| Conservation.HalvesRecombine | evaluation/benchmark/analyze.py:60-63 | Each run is cut in the middle, and the means of the two halves weighted by their sizes recombine to the overall mean |
| Conservation.HalfMeansRecombine | evaluation/benchmark/analyze.py:60-63 | `half_means` returns exactly when some run has two rounds, and its two rounded values, weighted by the sizes of the halves, miss the total by at most half a thousandth for each difference |
| Conservation.RunMeansAverage | evaluation/benchmark/analyze.py:89 | Per-run means of runs of equal length average to the overall mean |
| Conservation.MeasuredChain | evaluation/benchmark/analyze.py:77-92 | From the schedule to the report: for every chain of included conditions of measured runs the lookups succeed and the steps telescope |
| EmailHistory.LogDecides | providers/oidc4ac-test-email/src/main/java/org/keycloak/testsuite/authentication/OIDC4ACEmailAuthenticator.java:46-116 | After any history, the log of mails and successes alone decides the answer: success exactly when the submitted text is the code of the last mail, no success followed it and it is at most 300000 ms old; a new mail exactly when there is no such mail and sending works; each error exactly otherwise |
| EmailHistory.RunRefines | providers/oidc4ac-test-email/src/main/java/org/keycloak/testsuite/authentication/OIDC4ACEmailAuthenticator.java:118-135 | Over whole histories with forks and failed mails, the two note stores behave as one optional pair of code and issue time, and hold exactly that pair or nothing |
| EmailHistory.StepRefines | providers/oidc4ac-test-email/src/main/java/org/keycloak/testsuite/authentication/OIDC4ACEmailAuthenticator.java:46-116 | Each request, a fork included, is the same request on the one optional pair; a fork is a stutter step |
| EmailHistory.NotesAfter | providers/oidc4ac-test-email/src/main/java/org/keycloak/testsuite/authentication/OIDC4ACEmailAuthenticator.java:46-135 | What each request does to both notes in both stores: a sent code and its time are in both, a success or a failed renewal leaves neither, anything else changes nothing |
| EmailHistory.ReadsPending | providers/oidc4ac-test-email/src/main/java/org/keycloak/testsuite/authentication/OIDC4ACEmailAuthenticator.java:118-121 | The fallback read agrees with the client notes whether or not the auth notes survived |
| EmailHistory.SuccessHasItsMail | providers/oidc4ac-test-email/src/main/java/org/keycloak/testsuite/authentication/OIDC4ACEmailAuthenticator.java:56-87 | Each success answers the code of an earlier mail at most 300000 ms after its stamp, with no other mail or success in between |
| EmailHistory.MailsAreUsedOnce | providers/oidc4ac-test-email/src/main/java/org/keycloak/testsuite/authentication/OIDC4ACEmailAuthenticator.java:78-83 | Two successes never answer the same mail |
| EmailHistory.SuccessesBounded | providers/oidc4ac-test-email/src/main/java/org/keycloak/testsuite/authentication/OIDC4ACEmailAuthenticator.java:46-116 | Successes never outnumber mails; a mail still waiting is one more |
| EmailHistory.MailsApart | providers/oidc4ac-test-email/src/main/java/org/keycloak/testsuite/authentication/OIDC4ACEmailAuthenticator.java:89-94 | Two mails with no success between them are more than 300000 ms apart |
| EmailHistory.SendRate | providers/oidc4ac-test-email/src/main/java/org/keycloak/testsuite/authentication/OIDC4ACEmailAuthenticator.java:64-116 | k mails in a stretch without a success span at least (k - 1) * 300001 ms, whatever challenges, wrong codes, forks and failed mails there are |
| EmailHistory.OtherNotesKept | providers/oidc4ac-test-email/src/main/java/org/keycloak/testsuite/authentication/OIDC4ACEmailAuthenticator.java:123-135 | Client notes of other names are never touched |
| EmailAuthenticator.AuthenticationSession.SetSessionNote | providers/oidc4ac-test-email/src/main/java/org/keycloak/testsuite/authentication/OIDC4ACEmailAuthenticator.java:123-130 | Writes both stores and nothing else |
| EmailAuthenticator.AuthenticationSession.RemoveSessionNote | providers/oidc4ac-test-email/src/main/java/org/keycloak/testsuite/authentication/OIDC4ACEmailAuthenticator.java:132-135 | Removes from both stores and nothing else |
| EmailAuthenticator.AuthenticationSession.IssueIfNeeded | providers/oidc4ac-test-email/src/main/java/org/keycloak/testsuite/authentication/OIDC4ACEmailAuthenticator.java:89-116 | Keeps an unexpired code, or sends first and stores code and time only when the mail went out |
| EmailAuthenticator.AuthenticationSession.Authenticate | providers/oidc4ac-test-email/src/main/java/org/keycloak/testsuite/authentication/OIDC4ACEmailAuthenticator.java:46-54 | The new session and the response are those of the specification that the history lemmas are about |
| EmailAuthenticator.AuthenticationSession.Action | providers/oidc4ac-test-email/src/main/java/org/keycloak/testsuite/authentication/OIDC4ACEmailAuthenticator.java:57-87 | The same for a submitted code: expiry, match and mismatch branches |
| EmailAuthenticator.AuthenticationSession.Fork | providers/oidc4ac-test-email/src/main/java/org/keycloak/testsuite/authentication/OIDC4ACEmailAuthenticator.java:123-130 | A fork is a new session with the client notes and no auth notes |
| Codes.SixDigits | providers/oidc4ac-test-email/src/main/java/org/keycloak/testsuite/authentication/OIDC4ACEmailAuthenticator.java:106 | A number below a million is written as six digits that read back as that number |
| RelyingParty.CachesFromLog | test-client/app.py:83-320 | Under every interleaving of request steps, the log alone decides both caches: a state is pending exactly when a login stored it and no later callback took it and no later prune had a cutoff past its creation; a result is held exactly when it was opened and no later prune had a cutoff past its latest stamp; a record is the opened one with the later writes |
| Redemption.RedeemedOnce | test-client/app.py:260-262 | No state value is redeemed twice |
| Redemption.FoundIffPending | test-client/app.py:260-262 | A callback finds a context exactly when that context is still pending under its state |
| Redemption.ResultHasItsLogin | test-client/app.py:260-286 | Every result comes from one earlier redemption, which found the claims and nonce that one still earlier login stored under that state, and the result has those claims |
| Redemption.ResultsApart | test-client/app.py:260-286 | Two results have different ids, different records and different redemptions of different states |
| Redemption.ClaimsFixed | test-client/app.py:279-320 | While a result stays in the cache it names the same record with the same claims |
| Redemption.EntriesLeaveByExpiry | test-client/app.py:83-90 | An entry leaves a cache only by the callback of its own state or by a prune more than 900 s after its latest `created_at`; a prune leaves nothing older than its cutoff; entries that stay are unchanged |
| Redemption.ResultNeverReturns | test-client/app.py:83-90 | A result that left the cache never comes back |
| Redemption.StateNeverReturns | test-client/app.py:260-262 | A state that was redeemed or pruned never comes back |
| Redemption.RecordsUnshared | test-client/app.py:279-286 | No two results share a record |
| Redemption.RefreshTouchesOne | test-client/app.py:290-320 | A refresh step leaves both tables alone and changes at most the record it holds, hence at most one result |
| Redemption.WriteBack | test-client/app.py:314-316 | The unlocked write of a refresh token: it writes the token of the response, or the one it read; a response that names none changes the token of the record exactly when some refresh wrote the record since this one read it and the last of those writes put a different token |
| Threads.EntryHasItsRequest | test-client/app.py:217-320 | Every entry of the log was added by one step, and the steps of its thread tell it: which request it began with, how many steps it took, none of them failing, and what it saw; an opened result has the token its exchange granted between its pop and its opening, the claims its pop found and the time of its last step, a refresh writes the token of its answer or the one it read |
| Threads.StepLogs | test-client/app.py:217-320 | Conversely, which steps of a request add an entry (the prune, the store, the pop, the opening, the write, the stamp); every other step, a failing exchange among them, leaves the log and both caches alone |
| Threads.NothingAfterFailure | test-client/app.py:267-313 | A request whose exchange or verification failed takes no further step |
| Threads.TurnsExact | test-client/app.py:217-320 | The turns that these results speak of are the steps of the thread in the run, in order, each with the state reached before it |
| WholeRequests.RotationLost | test-client/app.py:290-318 | From any run with a live result, two overlapping refreshes end with the old token although the second had written a new one |
| WholeRequests.RotationLostFromStart | test-client/app.py:228-318 | Such a run exists: a login, its callback and two overlapping refreshes, after which the token is the first one again |
| WholeRequests.LoginAlone | test-client/app.py:228-239 | A login nobody interrupts prunes and stores its claims, nonce and time under its state |
| WholeRequests.CallbackAlone | test-client/app.py:259-287 | A callback nobody interrupts takes its context, however old as long as no prune came, and opens a result with its claims; the log has the pop and the opening and nothing else |
| WholeRequests.CallbackFails | test-client/app.py:259-277 | A callback that finds its context and whose exchange or verification fails has taken that context, opens nothing and logs nothing more |
| WholeRequests.RefreshFails | test-client/app.py:290-313 | A refresh whose exchange or verification fails leaves its record with its token and stamp: nothing changes but what it pruned |
| WholeRequests.HomeAlone | test-client/app.py:139-140 | The home page prunes both caches and does nothing else |
| WholeRequests.RefreshAlone | test-client/app.py:290-318 | A refresh nobody interrupts prunes, merges the refresh token and restamps exactly its record |
| WholeRequests.CallbackRefused | test-client/app.py:259-266 | A callback without a state, or with one that is not pending, changes no cache |
| WholeRequests.RefreshRefused | test-client/app.py:290-298 | A refresh of a result that is unknown, pruned by the refresh itself or without a usable token stops before any exchange and changes nothing but what it prunes |
| Caches.CacheStore.Prune | test-client/app.py:83-90 | Listing and popping the expired keys leaves exactly the entries at or after the cutoff, records untouched |
| Caches.CacheStore.StoreAuthorization | test-client/app.py:231-236 | Adds one pending authorization |
| Caches.CacheStore.PopAuthorization | test-client/app.py:260-261 | Takes out and returns exactly the named authorization, nothing for a missing or empty state |
| Caches.CacheStore.StoreResult | test-client/app.py:280-285 | Adds a record of its own under the result id |
| Caches.CacheStore.FindResult | test-client/app.py:293-294 | Returns the cached record itself, or nothing |
| Caches.CacheStore.WriteToken | test-client/app.py:314 | Writing through a held record changes that record and no other, cached or not |
| Caches.CacheStore.Stamp | test-client/app.py:315-316 | Restamps that record and no other |
| Totp.TruncationIsStandard | test-client/app.py:97-99 | For every 20-octet digest the offset is its last octet modulo 16, the four octets are in bounds, and masking the whole word, the formula of section 5.4 of RFC 4226 and the sum of the octets at their places are one number below 2^31 |
| Totp.CodeDenotes | test-client/app.py:98-100 | The code is six digits that denote ((d[o] mod 128) * 2^24 + d[o+1] * 2^16 + d[o+2] * 2^8 + d[o+3]) modulo a million, for o the last octet modulo 16 |
| Totp.ExampleCode | test-client/app.py:97-100 | The digest printed in section 5.4 of RFC 4226 gives 872921 |
| Totp.HelperShows | test-client/app.py:93-100 | The helper page shows the code of the eight octets that carry the index of the current 30-second window, and the whole seconds until the next one |
| Totp.PackedValue | test-client/app.py:97 | Packing a counter into eight bytes loses nothing |
| Totp.WindowExact | test-client/app.py:95-100 | `remaining` is in 1 to 30, the counter stays exactly until `remaining` seconds after the current second, and then is the next one |
| Totp.Runner.CurrentTotp | e2e/http/run.py:144-163 | The call waits exactly when it must, its code denotes the digest of the eight octets of the window of the moment it ends in, and its counter exceeds the last one |
| Totp.PausePasses | e2e/http/run.py:153-158 | A pause ends at least a quarter of a second past the next window boundary |
| Totp.CountersIncrease | e2e/http/run.py:144-163 | Over any number of calls under a monotone clock the counters strictly increase, starting after the window a fresh runner began in |
| Fixtures.IdsGone | evaluation/benchmark/make-fixtures.py:58-65 | The result of `without_ids` has no `id` member at any depth |
| Fixtures.KeepsExactlyIdFree | evaluation/benchmark/make-fixtures.py:58-65 | `without_ids` leaves a value alone exactly when it has no identifiers, and is idempotent |
| Fixtures.LookupWithoutIds | evaluation/benchmark/make-fixtures.py:61-62 | Every other member stays, with its value rewritten |
| Fixtures.RewritesCommute | evaluation/benchmark/make-fixtures.py:44-65 | `plain` and `without_ids` commute, member order included, wherever `plain` succeeds; stripping first makes it succeed on exactly one more kind of input |
| Fixtures.PlainMembers | evaluation/benchmark/make-fixtures.py:44-51 | No `oidc4ac.` attribute stays, every other attribute keeps its value, the flows are replaced, the authenticator configurations gone, and the other members of the realm unchanged |
| Fixtures.BrowserFlowsResolve | evaluation/benchmark/make-fixtures.py:25-41 | The new browser flow is among the flows, at the top level, and every step of every flow names an authenticator, or a sub-flow that is there and not at the top level, and not both |
| Fixtures.PlainKeepsClients | evaluation/benchmark/make-fixtures.py:52-54 | Clients stay in number and place; only the test client changes, and in it only the redirects, old ones first |
| Fixtures.PlainRealm | evaluation/benchmark/make-fixtures.py:44-55 | The step-by-step changes to the copy and the loop over clients compute that, or fail on the same inputs |
| Fixtures.DisabledExactly | evaluation/benchmark/make-fixtures.py:76-79 | The realm-disabled fixture has no identifiers, one OIDC4AC attribute (`oidc4ac.enabled` = "false"), and the other attributes of the realm |
| FormParser.FormsExact | e2e/http/run.py:52-78 | After any stream of tags, an id is in the result exactly when a form with it was closed with no form tag in between, such an id has a last form that closed it, and it maps to the action and fields of that form |
| FormParser.GetExact | e2e/http/run.py:61-70 | An attribute has the value of the last one of its name, or the default without any |
| FormParser.FieldsExact | e2e/http/run.py:67-70 | A form has a name exactly when an input or button between its tags carries it, with the value of the last one |
| FormParser.Forms.Feed | e2e/http/run.py:61-78 | Feeding the tags to the incremental parser gives exactly that |
| FormParser.Forms.HandleStartTag | e2e/http/run.py:61-70 | The effect of one start tag on the four fields |
| FormParser.Forms.HandleEndTag | e2e/http/run.py:72-78 | The effect of one end tag on the four fields |

## Left out

- Floating point: numbers of the page are exact decimals, sample times and means are reals; the sign of zero, overflow and rounding inside a sum are not modelled, and `round(x, 3)` is any function that is off by at most half a thousandth.
- Text: characters are Unicode scalar values, so an escape of a lone surrogate is a syntax error here; a text input holds a text without line breaks, a number input a floating-point text or nothing.
- Member order of integer-like names, which JavaScript engines list first; the model keeps insertion order, and the results about meaning do not depend on it.
- DOM rendering: node identifiers, positions, what datalists display, empty-state toggles and presets; of Discovery the model keeps the default method identifier and the methods that advertise a name `constructor`, as parameters.
- The page's tree is a value in a field of the page object, not linked DOM elements: aliasing between elements is not captured.
- Random draws, permutations, codes, identifiers, clock readings, exchanges with the provider and HMAC are parameters or outcomes; fresh identifiers and a clock that never goes back are assumed of runs.
- Steps of a request are as fine as its lock sections, clock readings and accesses to a shared record; an exchange that raises is one failing step.
- `Long.parseLong` of digits outside ASCII.
- Fields of benchmark conditions that neither schedule nor analysis reads, message sizes, warm-up rounds and the environment report.
- Insertion order of the parsed forms, HTML tokenising, and the order of attributes beyond "the last one wins".
- OAuth, JWT and nonce verification, base64, mail contents, form rendering, providers' factories.
- The planner and evaluator (not part of this repository's own sources), end-to-end scenarios, shell scripts and container files; `builder_discovery_metadata` and the detail-map checks would add only easy members.
- ConditionShare: speaks of a condition that occurs once in its group; `Fairness.SharesOfInstance` counts repeated ones.

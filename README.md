# Spinnaker build and test tooling, modelled in Dafny

This project models the deterministic core of the Spinnaker
release-engineering and integration-testing tools: release versioning
(semantic versions, commit tags, commit-message classification and the
next-version choice), the asynchronous-operation status trackers of the
Kato and Gate services, configuration binding and `${key}` substitution,
metrics bookkeeping, changelog and BOM assembly, command registration,
validation-script generation, and the metric reshaping, request routing
and descriptor clearing of the Stackdriver monitoring daemon. Every subprocess, HTTP exchange, file
read and clock reading is an input value; each Python module becomes one
Dafny module, and Python exceptions become the `Raise` case of a `Result`.

Shared modules: `Wrappers` (Option, Result and the Python exception kinds),
`Text` (string search, split, strip, decimal numerals, ordering and sorting)
and `Json` (decoded JSON values and Python truthiness).

## Model

| member | source | states |
|---|---|---|
| Gate.FlagsAgree | spinnaker_testing/gate.py:36-50 | finished_ok implies finished; timed_out implies finished and not finished_ok; timed_out holds iff the state is TERMINAL and ' timed out.' occurs in the detail text but not at index 0 |
| Gate.InitialSpec | spinnaker_testing/gate.py:52-74 | a JSON-object first response uses 'ref' as both detail path and request id, raising KeyError without it; any other body gives INTERNAL_ERROR, which is finished and not finished_ok; no response raises AttributeError |
| Gate.GateStatus.constructor | spinnaker_testing/spinnaker.py:121-139 | a new tracker has no id, detail, document or error, and state REQUEST_FAILED when the response is missing or failed |
| Gate.GateStatus.New | spinnaker_testing/gate.py:52-74 | construction raises exactly when the initial-state function raises, and otherwise yields a fresh tracker in that state |
| Gate.TaskExceptionFirst | spinnaker_testing/gate.py:97-100 | the first task holding an 'exception' supplies its message, a null one included; with no such task the result is None, distinct from every message |
| Gate.GateStatus.FirstTaskException | spinnaker_testing/gate.py:97-100 | the inner loop over the tasks returns the task-exception function's result: no task with an exception, or the first one's message |
| Gate.ScanVariablesDetails | spinnaker_testing/gate.py:91-94 | the last 'exception' variable decides the details; without one they stay None |
| Gate.ScanVariablesKato | spinnaker_testing/gate.py:95-100 | the scan leaves kato_exception as the message of the last 'kato.tasks' variable with a task holding an exception, or None |
| Gate.LastKatoSpec | spinnaker_testing/gate.py:95-100 | the last 'kato.tasks' variable with a task holding an exception decides the Kato message, through its first such task; without one it stays None |
| Gate.NullMessageResets | spinnaker_testing/gate.py:95-100 | a later task list whose exception message is null resets an earlier message to None |
| Gate.GateStatus.ScanElement | spinnaker_testing/gate.py:91-100 | one pass over a variable equals the per-variable step: an 'exception' variable sets the details, and a 'kato.tasks' variable with a task holding an exception sets the Kato message, even to None |
| Gate.UpdatedSpec | spinnaker_testing/gate.py:76-102 | an update sets current_state to doc['status'] even when a later lookup raises, keeps id, detail path, document and error, leaves None for empty variables, and otherwise sets the details when truthy, else the message of the last Kato task list holding an exception |
| Gate.GateStatus.UpdateResponseFromJson | spinnaker_testing/gate.py:76-102 | the loop over the variables leaves the result and the fields the update function gives, whose details and Kato message the scan lemmas characterise |
| Gate.RefreshedSpec | spinnaker_testing/spinnaker.py:148-173 | polling a finished operation changes nothing; a failed poll sets state 'Unknown'; an undecodable body raises and keeps the state |
| Gate.GateStatus.SetHttpResponse | spinnaker_testing/spinnaker.py:160-173 | delivering a response changes the fields as the delivery function says |
| Gate.GateStatus.Refresh | spinnaker_testing/spinnaker.py:148-158 | a poll changes the fields as the refresh function says |
| Gate.MakePayload | spinnaker_testing/gate.py:111-124 | the payload is an object with exactly the keys job, application and description |
| Gate.MakeCreateAppOperation | spinnaker_testing/gate.py:126-156 | raises KeyError exactly when GCE_CREDENTIALS is unbound; otherwise posts 'create_app' to 'applications/<name>/tasks' |
| Gate.CreateAppOperationSpec | spinnaker_testing/gate.py:126-156 | one createApplication job on the bound account, description defaulting to 'Gate Testing Application' and e-mail to 'testuser@testhost.org' |
| Gate.MakeDeleteAppOperation | spinnaker_testing/gate.py:158-181 | raises KeyError exactly when GCE_CREDENTIALS is unbound; otherwise posts 'delete_app' to 'applications/<name>/tasks' |
| Gate.DeleteAppOperationSpec | spinnaker_testing/gate.py:158-181 | one deleteApplication job on the bound account naming only the application |
| ExpressionDict.New | spinnaker_testing/expression_dict.py:29-31 | the default-value interpreter starts as the identity |
| ExpressionDict.Get | spinnaker_testing/expression_dict.py:33-36 | an absent key gives the default; a present one its resolved value |
| ExpressionDict.GetItem | spinnaker_testing/expression_dict.py:38-41 | an absent key raises KeyError; a present one gives its resolved value |
| ExpressionDict.NonStringUnchanged | spinnaker_testing/expression_dict.py:44-49 | a stored non-string is returned unchanged |
| ExpressionDict.ExactFragment | spinnaker_testing/expression_dict.py:55-65 | a value that is one whole '${k}' or '${k:def}' resolves to k's value with its type, else to the interpreted default, else to itself |
| ExpressionDict.ResolveKeyError | spinnaker_testing/expression_dict.py:43-85 | resolution raises KeyError only for an absent key; every other failure is the cycle error |
| ExpressionDict.SubstituteErrors | spinnaker_testing/expression_dict.py:72-82 | fragment substitution fails only with the cycle error, since absent keys are caught |
| ExpressionDict.ReplacementSpec | spinnaker_testing/expression_dict.py:74-81 | a fragment becomes str() of its key's value, or the default when the key is absent, or stays verbatim |
| ExpressionDict.AbsentKeysVerbatim | spinnaker_testing/expression_dict.py:67-85 | text whose fragments all name absent keys without defaults comes back unchanged |
| ExpressionDict.NextMatchIsFirst | spinnaker_testing/expression_dict.py:55-72 | the scan reports the leftmost match of the pattern |
| ExpressionDict.SelfReferenceIsCycle | spinnaker_testing/expression_dict.py:50-53 | an entry whose value is '${itself}' raises the cycle ValueError |
| ExpressionDict.SiblingsAreNotACycle | spinnaker_testing/expression_dict.py:50-82 | two references to the same entry in one string are not a cycle |
| ExpressionDict.SubstituteFragments | spinnaker_testing/expression_dict.py:67-85 | the append-and-advance loop over the matches yields the substitution function's result |
| YamlUtil.UpdateField | spinnaker_testing/yaml_util.py:43-54 | updating one name keeps every other entry of the container and adds the name |
| YamlUtil.MergeMapsAt | spinnaker_testing/yaml_util.py:43-54 | under each key a merge keeps the old entry when the key is not imported, merges two mappings, and otherwise takes the imported value |
| YamlUtil.ImportSpec | spinnaker_testing/yaml_util.py:32-54 | the keys after an import are the old keys plus the imported ones; unmentioned keys keep their values; a mapping landing on a mapping merges, anything else overwrites |
| YamlUtil.MergeKeepsUntouched | spinnaker_testing/yaml_util.py:43-54 | entries the import does not mention survive at every depth |
| YamlUtil.MergeLeavesWin | spinnaker_testing/yaml_util.py:43-54 | every non-mapping value the import carries is found at its path afterwards |
| YamlUtil.ImportStep | spinnaker_testing/yaml_util.py:32-34 | importing one more key is one `__update_field` call on the result so far, so the loop's order does not matter |
| YamlUtil.YamlBindings.constructor | spinnaker_testing/yaml_util.py:26-27 | new bindings hold an empty mapping |
| YamlUtil.YamlBindings.ImportDict | spinnaker_testing/yaml_util.py:32-34 | the loop over the items leaves the root equal to the import of the dictionary into the old root |
| YamlUtil.GetNode | spinnaker_testing/yaml_util.py:56-66 | a failed lookup raises KeyError naming the whole field |
| YamlUtil.FoundIsField | spinnaker_testing/yaml_util.py:56-66 | a field that resolves is one of the finitely many dotted paths of the root, which bounds the resolution |
| YamlUtil.YamlBindings.GetNodeWalk | spinnaker_testing/yaml_util.py:56-66 | the walk down the parts of the field finds the node the path lookup names, or raises KeyError(field) |
| YamlUtil.GetMissing | spinnaker_testing/yaml_util.py:29-66 | a missing part, or a part below a non-mapping, makes get raise KeyError(field) |
| YamlUtil.GetPassthrough | spinnaker_testing/yaml_util.py:68-71 | a non-string, or a string not starting with '$', is returned as stored and leaves `saw` alone |
| YamlUtil.RevisitIsCycle | spinnaker_testing/yaml_util.py:75-76 | a '$'-valued field already in `saw` raises the cycle ValueError |
| YamlUtil.KeyErrorOnlyWhenMissing | spinnaker_testing/yaml_util.py:68-91 | resolution raises KeyError only when the field itself is missing; missing references are caught |
| YamlUtil.SelfReferenceIsCycle | spinnaker_testing/yaml_util.py:73-91 | a field whose value is '${itself}' raises the cycle ValueError |
| YamlUtil.SharedSawRejectsSiblings | spinnaker_testing/yaml_util.py:77-85 | `saw` is shared, so a second reference to the same '$'-valued field raises the cycle error |
| YamlUtil.SurroundingTextDropped | spinnaker_testing/yaml_util.py:80-93 | text around a reference is lost: '${b}' plus a suffix resolves to b's text alone |
| YamlUtil.YamlBindings.GetValueLoop | spinnaker_testing/yaml_util.py:68-93 | the recursive lookup returns the result and the `saw` set the resolution function gives |
| YamlUtil.YamlBindings.PiecesLoop | spinnaker_testing/yaml_util.py:80-92 | the loop over the matches appends exactly the pieces the resolution function concatenates |
| YamlUtil.YamlBindings.Get | spinnaker_testing/yaml_util.py:29-30 | get resolves the field starting from an empty `saw` |
| ScrapeSpringConfig.ConfigEntryOf | spinnaker_testing/scrape_spring_config.py:30-35 | a one-line name 'applicationConfig: [X]suffix' with X non-empty and no ']' in the suffix is re-keyed as X + suffix |
| ScrapeSpringConfig.OtherNamesIgnored | spinnaker_testing/scrape_spring_config.py:30-32 | a name not starting with 'applicationConfig: [' contributes nothing |
| ScrapeSpringConfig.AppConfigSpec | spinnaker_testing/scrape_spring_config.py:28-35 | the keys of `applicationConfig` are exactly the re-keyed names of the document, each bound to the value of a name that re-keys to it |
| ScrapeSpringConfig.AddItemsSpec | spinnaker_testing/scrape_spring_config.py:29-35 | the loop's dictionary gains exactly the re-keyed names and keeps the other entries |
| ScrapeSpringConfig.CollectAppConfig | spinnaker_testing/scrape_spring_config.py:28-35 | the loop over the items builds the `applicationConfig` the specification function gives |
| ScrapeSpringConfig.Update | spinnaker_testing/scrape_spring_config.py:38-55 | `update` succeeds exactly on a dictionary and then adds or overwrites exactly its keys |
| ScrapeSpringConfig.ApplyConcat | spinnaker_testing/scrape_spring_config.py:37-55 | updating with two lists of layers in a row is updating with their concatenation; an error stops the sequence |
| ScrapeSpringConfig.LastLayerWins | spinnaker_testing/scrape_spring_config.py:37-55 | a key takes the value of the last layer that binds it |
| ScrapeSpringConfig.UnboundKeyKept | spinnaker_testing/scrape_spring_config.py:37-55 | a key no layer binds keeps its earlier value, or stays absent |
| ScrapeSpringConfig.BasePrecedence | spinnaker_testing/scrape_spring_config.py:37-40 | systemEnvironment overrides systemProperties, which overrides defaultProperties, and the base holds exactly the keys they bind |
| ScrapeSpringConfig.RootFilesMembers | spinnaker_testing/scrape_spring_config.py:49-55 | a root reads '<root>.yml' and '<root>-<profile>.yml' for each profile, and nothing else |
| ScrapeSpringConfig.NameFilesMembers | spinnaker_testing/scrape_spring_config.py:47-55 | the files of a location are those of the roots 'file:<location><name>' for its names |
| ScrapeSpringConfig.FilesMembers | spinnaker_testing/scrape_spring_config.py:46-55 | a location ending in '/' is combined with every spring.config.name, any other location with '' alone |
| ScrapeSpringConfig.Setting | spinnaker_testing/scrape_spring_config.py:42-44 | a setting absent from the base raises KeyError naming it |
| ScrapeSpringConfig.MissingSettingRaises | spinnaker_testing/scrape_spring_config.py:37-44 | when no base layer binds one of the three settings, `infer` raises; for spring.config.name the error is KeyError |
| ScrapeSpringConfig.InferFileOverride | spinnaker_testing/scrape_spring_config.py:46-57 | a key bound by some configuration file takes its value from the last file read that binds it |
| ScrapeSpringConfig.InferKeepsBase | spinnaker_testing/scrape_spring_config.py:37-57 | a key no configuration file binds keeps its base value, or stays absent |
| ScrapeSpringConfig.InferConfig | spinnaker_testing/scrape_spring_config.py:27-57 | the method with its loops returns what the `infer` function gives, errors included |
| ScrapeSpringConfig.LoadLocation | spinnaker_testing/scrape_spring_config.py:47-55 | the loop over the names of one location applies their files in order |
| ScrapeSpringConfig.LoadRoot | spinnaker_testing/scrape_spring_config.py:49-55 | '<root>.yml' then each profile file, stopping at the first update that raises |
| ConfigureUtil.ParseLineOf | google/pylib/configure_util.py:71-73 | a line 'NAME=value' with NAME a letter followed by word characters binds NAME to the rest of the line |
| ConfigureUtil.ParseLineShape | google/pylib/configure_util.py:71-73 | a line binds only when it is exactly a name, '=' and the value |
| ConfigureUtil.NonNameLines | google/pylib/configure_util.py:71-73 | blank lines, '#' comments and lines not starting with a letter bind nothing |
| ConfigureUtil.LoadKeeps | google/pylib/configure_util.py:64-73 | a name no line binds keeps its earlier value, or stays unbound |
| ConfigureUtil.LoadLastWins | google/pylib/configure_util.py:64-73 | a name takes the value of the last line binding it, overriding anything already present |
| ConfigureUtil.LoadDomain | google/pylib/configure_util.py:71-73 | after loading, a name is bound iff it was bound before or some line binds it |
| ConfigureUtil.SecondTextOverrides | google/unittest/configure_util_test.py:52-65 | loading a second file keeps what it does not bind and overrides what it binds |
| ConfigureUtil.ReplaceAbsent | google/pylib/configure_util.py:59 | `str.replace` leaves text without the pattern unchanged |
| ConfigureUtil.ReplaceWhole | google/pylib/configure_util.py:59 | a text that is exactly the pattern becomes the replacement |
| ConfigureUtil.SubDefaultAbsent | google/pylib/configure_util.py:61 | text without '${NAME:' is left alone by the defaulted-reference substitution |
| ConfigureUtil.SubDefaultWhole | google/pylib/configure_util.py:61 | '${NAME:default}', the default holding no '}', becomes the value |
| ConfigureUtil.RewriteUntouched | google/pylib/configure_util.py:56-62 | content mentioning no bound name comes back unchanged |
| ConfigureUtil.PlainReference | google/unittest/configure_util_test.py:68-90 | with the name bound, '$NAME' becomes its value |
| ConfigureUtil.BracedReference | google/unittest/configure_util_test.py:68-90 | with the name bound, '${NAME}' becomes its value |
| ConfigureUtil.DefaultedReference | google/unittest/configure_util_test.py:68-90 | with the name bound, '${NAME:default}' becomes its value whatever the default |
| ConfigureUtil.Bindings.constructor | google/pylib/configure_util.py:39-40 | a new object has no bindings |
| ConfigureUtil.Bindings.Clone | google/pylib/configure_util.py:42-45 | a fresh object holding the same bindings |
| ConfigureUtil.Bindings.GetVariable | google/pylib/configure_util.py:47-48 | the bound value, or the default when the name is unbound |
| ConfigureUtil.Bindings.SetVariable | google/pylib/configure_util.py:53-54 | binds the name to the value and leaves the other names alone |
| ConfigureUtil.Bindings.UpdateFromConfig | google/pylib/configure_util.py:64-73 | the bindings become the old ones loaded with each line of the text, later lines winning |
| ConfigureUtil.Bindings.ReplaceVariables | google/pylib/configure_util.py:56-62 | the loop over the bindings returns the three rewrites of each name applied in turn |
| BaseMetrics.LabelKeySingle | dev/buildtool/base_metrics.py:172 | one label k bound to v is filed under the key 'k=v' |
| BaseMetrics.LabelKeysCollide | dev/buildtool/base_metrics.py:172 | two different label maps can share a key, since the pieces are joined without a separator |
| BaseMetrics.Counter.constructor | dev/buildtool/base_metrics.py:67-69 | a new counter belongs to its family, carries its labels, has count 0 and no modification time |
| BaseMetrics.Counter.Touch | dev/buildtool/base_metrics.py:53-56 | the modification time becomes the given time or the clock, and the counter joins the registry's pending-update set |
| BaseMetrics.Counter.Inc | dev/buildtool/base_metrics.py:71-75 | the count grows by exactly the amount, and the counter is touched |
| BaseMetrics.Gauge.constructor | dev/buildtool/base_metrics.py:86-90 | a new gauge has value 0 and no modification time |
| BaseMetrics.Gauge.Touch | dev/buildtool/base_metrics.py:53-56 | the modification time is set and the gauge joins the pending-update set |
| BaseMetrics.Gauge.Set | dev/buildtool/base_metrics.py:100-104 | the value becomes the given one, and the gauge is touched |
| BaseMetrics.Gauge.Inc | dev/buildtool/base_metrics.py:106-110 | the value grows by the amount, and the gauge is touched |
| BaseMetrics.Gauge.Dec | dev/buildtool/base_metrics.py:112-116 | the value shrinks by the amount, and the gauge is touched |
| BaseMetrics.Gauge.Track | dev/buildtool/base_metrics.py:92-98 | the call's outcome, value or exception, passes through, and the value afterwards is what it was before the call |
| BaseMetrics.Timer.constructor | dev/buildtool/base_metrics.py:194-197 | a new timer has count 0 and total 0 |
| BaseMetrics.Timer.Touch | dev/buildtool/base_metrics.py:53-56 | the modification time is set and the timer joins the pending-update set |
| BaseMetrics.Timer.Observe | dev/buildtool/base_metrics.py:199-204 | the count grows by one and the total by the observed seconds, and the timer is touched |
| BaseMetrics.Family.constructor | dev/buildtool/base_metrics.py:161-168 | a new family keeps its registry, name, description, factory and type, and holds no instances |
| BaseMetrics.Family.Get | dev/buildtool/base_metrics.py:170-178 | labels whose key is filed give that instance and change nothing; otherwise a fresh instance made by the factory, in its initial state, is filed under the key |
| BaseMetrics.GetTwice | dev/buildtool/base_metrics.py:170-178 | two lookups with labels of the same key give the same instance and file at most one new key |
| BaseMetrics.Registry.constructor | dev/buildtool/base_metrics.py:234-242 | a new registry has no families and no pending updates |
| BaseMetrics.Registry.QueueUpdate | dev/buildtool/base_metrics.py:244-247 | the metric is added to the pending set; adding it again keeps one entry |
| BaseMetrics.Registry.RegisterFamily | dev/buildtool/base_metrics.py:348-356 | an existing family is returned and left in place; a new name gets a new empty family and the call returns None |
| BaseMetrics.Registry.Metric | dev/buildtool/base_metrics.py:268-273 | an unregistered name raises KeyError and a family of another type TypeError, changing nothing; otherwise the family's instance for the labels, made on first use |
| BaseMetrics.Registry.Inc | dev/buildtool/base_metrics.py:275-277 | the lookup's error, or the counter's count grows by the amount and it joins the pending set; the families are unchanged |
| BaseMetrics.Registry.Set | dev/buildtool/base_metrics.py:305-307 | the lookup's error, or the gauge holds the value and joins the pending set |
| BaseMetrics.Registry.Track | dev/buildtool/base_metrics.py:309-311 | the lookup's error, or the call's error or None, with the gauge's value as before the call |
| BaseMetrics.Registry.Time | dev/buildtool/base_metrics.py:338-346 | with the observation made outside the timer's lock: the lookup's error, or the call's outcome, after the timer observed the elapsed seconds once |
| BaseMetrics.Acquire | dev/buildtool/base_metrics.py:47 | a metric's lock is a plain, non-re-entrant lock: acquiring it succeeds exactly when it is free, and leaves it held |
| BaseMetrics.TimeAsWrittenBlocks | dev/buildtool/base_metrics.py:338-346 | as written, `time` holds the timer's lock while `observe` asks for it again, so it never returns |
| BaseMetrics.TimeReturns | dev/buildtool/base_metrics.py:338-346 | observing after the lock is released, `time` returns and leaves the lock free |
| BaseMetrics.Registry.FlushUpdatedMetrics | dev/buildtool/base_metrics.py:427-435 | with monitoring disabled nothing changes; otherwise the pending set is handed to the writer and emptied |
| PrometheusMetrics.DotsToColons | dev/buildtool/prometheus_metrics.py:56-57 | same length, every '.' replaced by ':' and every other character kept |
| PrometheusMetrics.PrometheusNameSpec | dev/buildtool/prometheus_metrics.py:56-57 | the exported name is 'buildtool:' followed by the name with its dots turned into colons, and holds no '.' |
| PrometheusMetrics.LabelIndex | dev/buildtool/prometheus_metrics.py:55 | every label name has an index that holds it, and it is the last such index |
| PrometheusMetrics.FirstUnknownSpec | dev/buildtool/prometheus_metrics.py:62-63 | no unknown key is found exactly when every key is a label name; a found key is one of the keys and not a label name |
| PrometheusMetrics.InstanceLabelsSpec | dev/buildtool/prometheus_metrics.py:59-64 | KeyError for a label the family does not name, and otherwise a list as long as the label names with each bound value at its name's index and '' elsewhere |
| PrometheusMetrics.FillLabels | dev/buildtool/prometheus_metrics.py:59-64 | the loop writing each bound value at its index gives the instance-label function's result |
| PrometheusMetrics.InstanceList | dev/buildtool/prometheus_metrics.py:75-97 | one entry per filed instance, each one of the family's instances |
| PrometheusMetrics.Readings | dev/buildtool/prometheus_metrics.py:75-78 | one reading per instance, in instance-list order |
| PrometheusMetrics.EncodeTimerShape | dev/buildtool/prometheus_metrics.py:66-85 | a timer family encodes to two counters, '<name>_count' and '<name>_totalSeconds', each with one sample per instance |
| PrometheusMetrics.EncodeGaugeShape | dev/buildtool/prometheus_metrics.py:87-101 | a gauge family encodes to one gauge with one sample per instance |
| PrometheusMetrics.EncodeUnsupported | dev/buildtool/prometheus_metrics.py:87-92 | a type other than TIMER, COUNTER and GAUGE raises ValueError |
| PrometheusMetrics.EncodeTimer | dev/buildtool/prometheus_metrics.py:66-80 | the loop adding each instance's count and total gives the encoding function's result |
| PrometheusMetrics.AddSamples | dev/buildtool/prometheus_metrics.py:97-99 | the loop adding one sample per instance gives the collected samples, or the first error |
| PrometheusMetrics.AddSample | dev/buildtool/prometheus_metrics.py:98-99 | one instance gives its label values in the family's label order and its value, or the error reading either raises |
| PrometheusMetrics.EncodeFamily | dev/buildtool/prometheus_metrics.py:82-101 | the method gives the encoding function's result for the family as it stood |
| PrometheusMetrics.CounterFamilyEncodeRaises | dev/buildtool/prometheus_metrics.py:87-99 | as written, a counter family with any counter instance raises, counters having no `value` |
| PrometheusMetrics.CounterFamilyEncodeCorrected | dev/buildtool/prometheus_metrics.py:87-99 | reading `count`, a counter family whose labels fit encodes to one counter with each instance's labels and count, in order |
| Git.MakeFromUrl | dev/buildtool/git.py:58-64 | the name is the url's text after its last '/', holding no '/'; the url and upstream reference are kept |
| Git.MergeToDict | dev/buildtool/git.py:67-76 | the merged keys are those of any mapping, each bound to its value in the last mapping that binds it |
| Git.UpstreamUrl | dev/buildtool/git.py:78-81 | None exactly when there is no upstream reference, else that reference's url |
| Git.MatchSemverSpec | dev/buildtool/git.py:89-102 | the match takes the longest series that a dotted version can follow, and fails when none can |
| Git.MakeRaisesIffNoMatch | dev/buildtool/git.py:96-107 | `make` raises ValueError exactly when the tag does not match, and otherwise reads the series and the three numbers |
| Git.MakeFromDigits | dev/buildtool/git.py:96-107 | any three non-empty digit runs after the series are read, leading zeros included |
| Git.TagRoundTrip | dev/buildtool/git.py:96-132 | a tag `<series>-<major>.<minor>.<patch>` with canonical numerals and a one-line non-empty series parses and renders back to itself |
| Git.VersionIsTextAfterLastDash | dev/buildtool/git.py:123-132 | `to_version` of a rendered tag is its text after the last '-' |
| Git.MostSignificantDiffIndex | dev/buildtool/git.py:110-121 | None exactly for equal versions, else the index of the most significant differing component |
| Git.DiffIndexSymmetric | dev/buildtool/git.py:110-121 | the difference index does not depend on the order of the two versions |
| Git.Next | dev/buildtool/git.py:134-159 | succeeds exactly for the MAJOR, MINOR and PATCH indices, raising ValueError otherwise |
| Git.NextFollowsSemver | dev/buildtool/git.py:134-159 | a bump raises its component by one, zeroes the less significant ones, keeps the series and yields a greater version |
| Git.MakeCommitTagSpec | dev/buildtool/git.py:167-179 | a `show-ref` line raises without a blank; otherwise the id is the text before the first blank and the tag the text after the last '/' of the second token |
| Git.IdToNewestTag | dev/buildtool/git.py:470-472 | the insertion loop over the sorted tags builds the id-to-tag map NewestTags: every tagged commit id is mapped, to one of its tags, the greatest of them |
| Git.NewestTagsSpec | dev/buildtool/git.py:470-472 | the id-to-tag map holds exactly the tagged commit ids, each bound to one of its tags, no tag of that commit being greater |
| Git.TagMapDomain | dev/buildtool/git.py:471-472 | the keys after inserting a list of tags are exactly their commit ids |
| Git.TagMapValues | dev/buildtool/git.py:471-472 | each key is bound to a tag inserted for that commit id |
| Git.TagMapGreatest | dev/buildtool/git.py:470-472 | inserting the tags in increasing order leaves each commit id bound to a tag no other tag of it exceeds, as later insertions win |
| Git.CommitMessageOfSpec | dev/buildtool/git.py:258-276 | an entry whose header does not match raises AttributeError; otherwise the id is the header's first line and the text the body lines, right-stripped, without blank lines at either end, joined by newlines |
| Git.TrimBlankLinesShape | dev/buildtool/git.py:267-270 | trimming keeps a contiguous run of the lines that starts and ends with a non-blank line, only blank lines cut |
| Git.BodyLinesStripped | dev/buildtool/git.py:264-270 | no body line ends in whitespace |
| Git.MakeCommitMessage | dev/buildtool/git.py:258-276 | the method with its two deletion loops gives the parsing function's result |
| Git.MessagesOfSpec | dev/buildtool/git.py:245-255 | the list parses exactly when every entry does, holding each entry's message in order, else the first failing entry's error |
| Git.MakeListFromResult | dev/buildtool/git.py:245-255 | the loop over the entries gives the list function's result |
| Git.SearchEmbeddedCommit | dev/buildtool/git.py:202-301 | the search finds the first line start from which the embedded commit header matches |
| Git.PruneIndentedSpec | dev/buildtool/git.py:307-319 | de-indenting fails exactly when some line is neither indented nor empty, and otherwise cuts the indent off each line |
| Git.UnpackAllPlain | dev/buildtool/git.py:291-329 | messages without an embedded commit are kept exactly as they are |
| Git.UnpackAllRaises | dev/buildtool/git.py:291-329 | unpacking raises only when the commits parsed from some embedded block do |
| Git.UnpackEmbeddedCommits | dev/buildtool/git.py:291-329 | the loop gives the unpacking function's result: an embedded, consistently indented block is replaced by the commits parsed from it |
| Git.UnpackMessage | dev/buildtool/git.py:300-328 | one message unpacks as the unpacking function says: kept when no embedded block is found, else replaced by what its block yields |
| Git.UnpackBlock | dev/buildtool/git.py:306-328 | the block from the match on, de-indented by the matched width, gives the commits parsed from it; a line neither indented nor empty keeps the message; a block that prunes to nothing drops it |
| Git.SummaryTextsCount | dev/buildtool/git.py:344-363 | one text per summary line, or the whole text when there is none |
| Git.BlocksFromStep | dev/buildtool/git.py:344-360 | a block runs from its summary line to the next summary line |
| Git.SplitAtSummaries | dev/buildtool/git.py:338-363 | the per-message loop gives each summary block, right-stripped, as a message with the source's id, author and date |
| Git.SummaryBlocks | dev/buildtool/git.py:350-363 | the loop over the lines gives the summary blocks: each run from one summary line up to the next, and the last from the last summary line (or the top) to the end, right-stripped |
| Git.SummaryStep | dev/buildtool/git.py:352-359 | one pass keeps the loop's invariant: the blocks closed so far followed by the blocks from the open one are all the blocks |
| Git.UnpackedSummariesKeepMetadata | dev/buildtool/git.py:332-365 | each message yields at least one message, each carrying its id, author and date |
| Git.UnpackEmbeddedSummaries | dev/buildtool/git.py:332-365 | the loop over the messages gives the summary-unpacking function's result |
| Git.NormalizeMessageList | dev/buildtool/git.py:279-288 | embedded commits are unpacked first, then embedded summaries, the first raising stopping it |
| Git.SemverImplicationSpec | dev/buildtool/git.py:383-431 | MAJOR exactly when a line holds 'BREAKING CHANGE'; else MINOR for a feature word or when no patch word is present; else PATCH |
| Git.MinOfIsMin | dev/buildtool/git.py:373-380 | the running minimum is one of the values and no value is smaller |
| Git.ListImplicationIsMin | dev/buildtool/git.py:368-381 | the list's implication is the smallest implication of its messages |
| Git.ListImplicationOrderFree | dev/buildtool/git.py:368-381 | reordering the messages does not change the implication |
| Git.ImplicationOnList | dev/buildtool/git.py:368-381 | None exactly for no messages, else the list implication |
| Git.TagCommitsRaises | dev/buildtool/git.py:663-675 | the tag query raises IndexError exactly when some `show-ref` line has no blank |
| Git.TagCommitsOrdered | dev/buildtool/git.py:663-675 | the queried tags are version tags, greatest first |
| Git.TagCommitsComplete | dev/buildtool/git.py:663-675 | every line that parses to a version tag is among the queried tags |
| Git.CountCommitsToTag | dev/buildtool/git.py:478-490 | counts the commits before the first whose id has a non-empty tag; when none has, the last line's tag decides, none raising ValueError; the tag returned is the baseline tag, and it raises exactly when there is none |
| Git.BaselineTagAt | dev/buildtool/git.py:480-490 | the scan's tag is that of the first line whose commit carries a non-empty tag, or, when every earlier line is untagged, that of the last line, missing or empty |
| Git.CommitsToExistingTag | dev/buildtool/git.py:464-498 | a tagged commit gives its greatest tag and no messages; otherwise the tag is the baseline tag of the oneline log read against the id-to-tag map (the first non-empty tag met, or the last line's empty tag) and the messages are those parsed from the medium log; it raises exactly when there is no baseline tag (ValueError) or the medium log does not parse (that parse error) |
| Git.CollectRepositorySummary | dev/buildtool/git.py:695-719 | with no messages the tag and its version are kept; otherwise the version is bumped by the list implication; a malformed tag raises |
| AnnotateSource.TagsMatching | dev/annotate_source.py:139-168 | the tags whose match against the build-tag pattern is as asked, in their order |
| AnnotateSource.PartitionIsExact | dev/annotate_source.py:152-168 | every tag lands in exactly one of the two lists, as often as it occurs |
| AnnotateSource.ShowRefTagsSpec | dev/annotate_source.py:35-166 | the tags are read exactly when every line of the stripped output has a blank, one per line; otherwise IndexError |
| AnnotateSource.MakeAnnotator | dev/annotate_source.py:141-150 | a constructed annotator keeps only build tags in its filtered list |
| AnnotateSource.MakeAnnotatorSpec | dev/annotate_source.py:141-168 | construction fails exactly when the tags cannot be read; the two lists together hold every tag once, the build tags filtered; the build number is the option, else the environment's, else '' |
| AnnotateSource.NewestIndexSpec | dev/annotate_source.py:234-235 | no version exceeds the newest one, and every version before it in the list is smaller |
| AnnotateSource.NewestTag | dev/annotate_source.py:234-241 | the newest tag is one of the build tags |
| AnnotateSource.StopIndexSpec | dev/annotate_source.py:303 | the scan ends at a commit with the previous tag's hash, or at the end, passing none before |
| AnnotateSource.ScanSpec | dev/annotate_source.py:303-310 | the scan calls for a major bump exactly when a commit it reaches is a breaking change, a minor one exactly when none is but one is a feature, a patch bump otherwise |
| AnnotateSource.BumpKindSpec | dev/annotate_source.py:290-310 | the same, stated over the zipped hashes and messages before the previous version's commit |
| AnnotateSource.ScanStopsAtPrevious | dev/annotate_source.py:303-310 | histories that agree up to the previous version's commit call for the same bump |
| AnnotateSource.OlderCommitsIgnored | dev/annotate_source.py:303-310 | the messages of the previous version's commit and of older commits do not affect the bump |
| AnnotateSource.BumpText | dev/annotate_source.py:312-319 | the version string of each kind of bump, `int()` applied only to the bumped component |
| AnnotateSource.BumpOf | dev/annotate_source.py:268-319 | the bump reads the three numbers after the tag's first '-', raising ValueError when they are not three or the bumped one is no integer |
| AnnotateSource.BumpSemver | dev/annotate_source.py:268-319 | the loop with its two flags and early break gives the bump function's result |
| AnnotateSource.ScanCommits | dev/annotate_source.py:302-318 | the scan of the commits newer than the stop hash gives the major bump on a BREAKING CHANGE line, else the minor bump on a feat( line, else the patch bump |
| AnnotateSource.BumpTextSpec | dev/annotate_source.py:312-319 | bumping succeeds, sets exactly the flag of its kind, and its version string reads back as the numbers advanced at that component |
| AnnotateSource.BumpFromBuildTag | dev/annotate_source.py:268-319 | from a build tag the bump succeeds and its version reads back as the tag's version advanced as the commits call for |
| AnnotateSource.BumpOfBuildTag | dev/annotate_source.py:268-319 | from a build tag the bump advances the tag's three numbers |
| AnnotateSource.CommitHashes | dev/annotate_source.py:254-255 | one hash per line of the stripped oneline log, the text before its first blank |
| AnnotateSource.CommitMessages | dev/annotate_source.py:258-261 | one stripped medium log per hash, in order |
| AnnotateSource.DetermineNextTagSpec | dev/annotate_source.py:217-266 | no build tag raises GitTagMissing; the newest build tag on HEAD means no tag; otherwise `--next_tag`, when given, is returned as it is |
| AnnotateSource.DetermineNextTagBumps | dev/annotate_source.py:243-266 | without `--next_tag` the choice is the newest build tag's version bumped at the component the commits since it call for |
| AnnotateSource.HeadTagsSpec | dev/annotate_source.py:180-195 | the two tags put on HEAD are `<version>-<build>` and the same without the word 'version-' |
| AnnotateSource.TagHeadAsWritten | dev/annotate_source.py:170-195 | as written, a `--next_tag` text reaches `.version_str` and raises AttributeError |
| AnnotateSource.GivenTagBreaksTagHead | dev/annotate_source.py:170-245 | an annotator with `--next_tag` set, whose newest build tag is not on HEAD, raises when tagging |
| AnnotateSource.TagHead | dev/annotate_source.py:170-195 | corrected, a given tag is used as the version string, like a computed bump's |
| AnnotateSource.TagHeadWritesBothTags | dev/annotate_source.py:170-195 | corrected, tagging never raises, writes nothing exactly when HEAD already has a build tag, and otherwise writes both tags |
| BuildUtil.PathJoin | dev/buildtool/util.py:62-65 | an absolute second part replaces the first; otherwise exactly one '/' separates them |
| BuildUtil.LogfilePathSpec | dev/buildtool/util.py:51-65 | a relative component's log lands in `--logs_dir`, or else `<scratch_dir>/logs`, named `<component>-<decorator>.log` |
| BuildUtil.MissingOptions | dev/buildtool/util.py:45 | the listed names whose option is missing or falsy, in order |
| BuildUtil.MissingOptionsSpec | dev/buildtool/util.py:45 | exactly the unset names are reported, each as often and in the order it is listed |
| BuildUtil.EnsureOptionsSet | dev/buildtool/util.py:42-48 | ValueError naming every unset option, joined by ', ', or nothing |
| BuildUtil.EnsureOptionsSetSpec | dev/buildtool/util.py:42-48 | the check passes exactly when every listed option holds a truthy value |
| BuildUtil.Pad2ReadsBack | dev/buildtool/util.py:80 | a two-digit field below 100 reads back as its number |
| BuildUtil.ClockTextReadsBack | dev/buildtool/util.py:80 | the time of day is eight characters whose fields read back as hours, minutes and seconds |
| BuildUtil.DateTextReadsBack | dev/buildtool/util.py:80 | a date with a four-digit year is ten characters whose fields read back as year, month and day |
| BuildUtil.TimestringReadsBack | dev/buildtool/util.py:77-80 | a timestamp with a four-digit year is 19 characters: the date, a blank and the time, each field reading back |
| BuildUtil.TimedeltaStringSpec | dev/buildtool/util.py:83-102 | a non-negative duration prints its day count when non-zero, then hours, minutes and seconds when there are days or hours, else minutes and seconds when there are minutes, else seconds and milliseconds |
| BuildUtil.TimedeltaDayHoursExample | unittest/buildtool/util_test.py:126 | one day and 4:05:02 prints as 'days=1 + 04:05:02' |
| BuildUtil.TimedeltaDayMinutesExample | unittest/buildtool/util_test.py:127 | one day and 0:05:02 prints as 'days=1 + 00:05:02' |
| BuildUtil.TimedeltaDaySecondsExample | unittest/buildtool/util_test.py:128 | one day and two seconds prints as 'days=1 + 00:00:02' |
| BuildUtil.TimedeltaHoursExample | unittest/buildtool/util_test.py:129 | 4:05:02 prints as '04:05:02' |
| BuildUtil.TimedeltaMinutesExample | unittest/buildtool/util_test.py:130 | 5:02 prints as '05:02' |
| BuildUtil.TimedeltaSecondsExample | unittest/buildtool/util_test.py:131 | 2.123456 seconds prints as '2.123 secs' |
| Spinnaker.NameValueToDict | spinnaker_testing/spinnaker.py:74-86 | the loop over the matches gives the bindings function's result, later names overriding earlier ones |
| Spinnaker.BindingsFromNames | spinnaker_testing/spinnaker.py:81-85 | every recorded name is the name of some match of the pattern |
| Spinnaker.BindingsFromValues | spinnaker_testing/spinnaker.py:81-85 | every recorded value is stripped and holds no '#' |
| Spinnaker.NoCommentOneBinding | spinnaker_testing/spinnaker.py:81-85 | without any '#', the first value swallows the rest of the content, so at most one name is recorded |
| Spinnaker.InitialState | spinnaker_testing/spinnaker.py:121-139 | the state is REQUEST_FAILED exactly when there is no response or its return code is negative, else unknown |
| Spinnaker.Deliver | spinnaker_testing/spinnaker.py:160-173 | a negative return code is only noted; otherwise a body that does not decode raises ValueError and a decoded one is stored |
| Spinnaker.DetermineHostPlatform | spinnaker_testing/spinnaker.py:196-206 | HOST_PLATFORM wins when set; any platform chosen is non-empty |
| Spinnaker.DetermineHostPlatformSpec | spinnaker_testing/spinnaker.py:196-206 | without HOST_PLATFORM, gce for a GCE project, else native for a native host, else ValueError |
| Spinnaker.PlanAgentSpec | spinnaker_testing/spinnaker.py:208-243 | a native agent's URL is `http://<host>:<NATIVE_PORT or port>`, None without a host; an unknown platform raises ValueError |
| Kato.Start | spinnaker_testing/kato.py:47-53 | a new tracker is neither finished nor in error |
| Kato.InitialSpec | spinnaker_testing/kato.py:47-74 | a JSON-object response gives the detail path and request id, raising KeyError without them; any other body leaves the tracker finished, failed and in CITEST_INTERNAL_ERROR; no response raises |
| Kato.UpdatedSpec | spinnaker_testing/kato.py:76-90 | the state becomes the phase; completion finishes the tracker with the reported failure flag; a failure records the status text as exception details |
| Kato.UpdatedMalformed | spinnaker_testing/kato.py:76-80 | a status report missing a key the update reads raises and changes nothing |
| Kato.FinishedStays | spinnaker_testing/spinnaker.py:148-158 | once finished, a tracker stays finished, and a refresh does nothing |
| Kato.DeliveredSpec | spinnaker_testing/spinnaker.py:160-173 | a negative return code sets the state to 'Unknown' and keeps the rest; an undecodable body raises ValueError and changes nothing; a decoded body is stored |
| Kato.TypeToPayload | spinnaker_testing/kato.py:99-111 | the payload is a one-element list holding the map from the type name to the given document |
| Kato.KatoStatus.constructor | spinnaker_testing/kato.py:47-74 | construction leaves the tracker in the initial state its response determines |
| Kato.KatoStatus.UpdateResponseFromJson | spinnaker_testing/kato.py:76-90 | the update's result and new state are those of the update function |
| Kato.KatoStatus.SetHttpResponse | spinnaker_testing/spinnaker.py:160-173 | the delivery's result and new state are those of the delivery function |
| Kato.KatoStatus.Refresh | spinnaker_testing/spinnaker.py:148-158 | a finished tracker is left alone; otherwise the polled response is delivered |
| Changelog.TitleMatchConventional | dev/buildtool/changelog_commands.py:41 | a title `<type>(<component>):<message>` with a one-line message matches, capturing the component and the message |
| Changelog.TitleMatch | dev/buildtool/changelog_commands.py:41 | a match captures a non-empty component free of ')' and a message that stays on the title line |
| Changelog.ClosedComponent | dev/buildtool/changelog_commands.py:41 | the component ends at the first ')' and the message is the rest after blanks and one ':' or '-' |
| Changelog.StripGithubIdRoundTrip | dev/buildtool/changelog_commands.py:133 | a line ending in '(#digits)' loses that suffix and the whitespace before it |
| Changelog.DigitRunStartAt | dev/buildtool/changelog_commands.py:133 | the digits before the closing ')' are the whole run of digits there |
| Changelog.CleanMessageRoundTrip | dev/buildtool/changelog_commands.py:144-156 | cleaning a message whose title ends in '(#digits)' gives the stripped title, followed by '\n' and the later lines when there are any |
| Changelog.CleanMessageKeepsBody | dev/buildtool/changelog_commands.py:144-156 | cleaning never touches the lines after the first and only ever shortens the first line to a prefix of itself, so text without the suffix is kept |
| Changelog.FilterSpec | dev/buildtool/changelog_commands.py:82-92 | a section's list holds exactly the messages of that section, each as often as in the input |
| Changelog.Bucket | dev/buildtool/changelog_commands.py:82-92 | the workspace filled message by message maps exactly the sections that occur to their messages in input order |
| Changelog.SectionOf | dev/buildtool/changelog_commands.py:59-81 | the section chosen for a message is one of the five, Other catching whatever the first four patterns miss |
| Changelog.PartitionShape | dev/buildtool/changelog_commands.py:94-101 | the result lists exactly the non-empty sections, in the order Breaking Changes, Features, Configuration, Fixes, Other, each under its title |
| Changelog.PartitionSections | dev/buildtool/changelog_commands.py:86-101 | each section holds the messages whose first matching pattern is its own, sorted by `_sort_partition` when asked and in input order otherwise |
| Changelog.PartitionPermutes | dev/buildtool/changelog_commands.py:59-101 | every message lands in exactly one section, so the sections together are a permutation of the input, and the result is empty only without messages |
| Changelog.PartitionCommits | dev/buildtool/changelog_commands.py:52-101 | the loop over messages and then over section kinds computes the partition function |
| Changelog.SortedThingsIncreasing | dev/buildtool/changelog_commands.py:125 | the components are visited in strictly increasing order, None first |
| Changelog.SortedThingsHas | dev/buildtool/changelog_commands.py:125 | every component that occurs is visited, and no other |
| Changelog.SortPartitionSpec | dev/buildtool/changelog_commands.py:103-127 | `_sort_partition` is a permutation whose components never decrease and which keeps the input order among messages of one component |
| Changelog.SortGroupsStable | dev/buildtool/changelog_commands.py:112-126 | for each component, its messages in the result are its messages in the input, in the same order |
| Changelog.SortPartitionBuckets | dev/buildtool/changelog_commands.py:103-127 | bucketing by component and concatenating the buckets in sorted component order computes the sort function |
| Changelog.ConcatBuckets | dev/buildtool/changelog_commands.py:125-126 | extending the result by each bucket in turn yields the messages grouped in that component order |
| Changelog.ShortId | dev/buildtool/changelog_commands.py:227-229 | a commit link shows the first 8 characters of the id, or all of a shorter id |
| Changelog.ChangelogBuilder.constructor | dev/buildtool/changelog_commands.py:135-140 | a new builder has no entries, the given options and sorted partitions |
| Changelog.NewChangelogBuilder | dev/buildtool/changelog_commands.py:135-142 | `with_partition` defaults to on and `with_detail` to off; any other keyword raises KeyError |
| Changelog.ChangelogBuilder.AddRepository | dev/buildtool/changelog_commands.py:158-163 | the normalized messages are appended with the repository and summary; when normalizing raises, the builder is unchanged |
| Changelog.CommitsByTypeSpec | dev/buildtool/changelog_commands.py:195-232 | for a repository with messages, "Changes by Type" is its heading, then per section a '#### ' heading, one bullet per message and an empty line, and every message has its bullet |
| Changelog.SectionsLinesCount | dev/buildtool/changelog_commands.py:214-231 | the section lines number two per section plus one per message |
| Changelog.LinesAt | dev/buildtool/changelog_commands.py:217-230 | the lines a loop appends item by item are, in order, one per item |
| Changelog.ChangelogBuilder.BuildCommitsByType | dev/buildtool/changelog_commands.py:195-232 | the report built section by section is "Changes by Type" of the entry's partition |
| Changelog.SectionsReport | dev/buildtool/changelog_commands.py:207-232 | without sections the report is the heading and '  No Significant Changes.'; otherwise the heading and each section's lines |
| Changelog.RenderLines | dev/buildtool/changelog_commands.py:217-230 | appending one line per item in a loop gives the lines of the items in order |
| Changelog.RenderBlocks | dev/buildtool/changelog_commands.py:214-231 | appending each section's block in a loop gives the blocks in order |
| Changelog.CommitsBySequenceSpec | dev/buildtool/changelog_commands.py:234-256 | "Changes by Sequence" is its heading followed by one paragraph per message, in message order |
| Changelog.ChangelogBuilder.BuildCommitsBySequence | dev/buildtool/changelog_commands.py:234-256 | the report built message by message is "Changes by Sequence" of the entry |
| Changelog.ReportLinesSpec | dev/buildtool/changelog_commands.py:165-193 | the report holds each entry's lines in turn, a heading preceded by a blank pair exactly when an earlier entry had changes |
| Changelog.SepStep | dev/buildtool/changelog_commands.py:178-191 | an entry without changes leaves the separator as it was, one with changes sets it to the blank pair |
| Changelog.BuildTextSpec | dev/buildtool/changelog_commands.py:49-50 | the entries are reported sorted by repository name, stably, and all of them, each with its lines and separator |
| Changelog.ChangelogBuilder.Build | dev/buildtool/changelog_commands.py:165-193 | the text built is the report lines of the entries sorted by name, joined by newlines |
| Changelog.ChangelogBuilder.ReportEntries | dev/buildtool/changelog_commands.py:169-191 | the loop over sorted entries, carrying the separator, produces the report lines |
| Changelog.ChangelogBuilder.EntryReport | dev/buildtool/changelog_commands.py:175-190 | an entry without messages gives its heading, '  No Changes' and a blank pair; otherwise its heading then the requested sections, each followed by a newline |
| Changelog.ChangelogBuilder.ByTypeReport | dev/buildtool/changelog_commands.py:185-187 | "Changes by Type" and a newline only when `with_partition` is set |
| Changelog.ChangelogBuilder.BySequenceReport | dev/buildtool/changelog_commands.py:188-190 | "Changes by Sequence" and a newline only when `with_detail` is set |
| BomCommands.UrlPrefixSpec | dev/buildtool/bom_commands.py:50-54 | with a '/', the prefix is the url before its last '/'; without one, `rfind`'s -1 makes it the url less its last character |
| BomCommands.UrlPrefixOf | dev/buildtool/bom_commands.py:50-54 | the prefix of '<prefix>/<name>' with a '/'-free name is '<prefix>' |
| BomCommands.UrlPrefixAndName | dev/buildtool/bom_commands.py:50-54 | a url with a '/' is its prefix, a '/', and the repository name taken from its last path component |
| BomCommands.BomPathSpec | dev/buildtool/bom_commands.py:57-63 | the `bom_path` option when it is set; otherwise a path inside the scratch directory ending in 'bom-<git_branch or NOBRANCH>-<build_number>.yml' |
| BomCommands.ToBuildVersionReadsBack | dev/buildtool/bom_commands.py:92-95 | '<version>-<build_number>' starts with the version, and its text after the last '-' is the build number when that has no '-' |
| BomCommands.CountByErrors | dev/buildtool/bom_commands.py:133-137 | counting succeeds exactly when every summarized name has a repository; otherwise it raises KeyError for one without |
| BomCommands.CountByCounts | dev/buildtool/bom_commands.py:133-137 | each prefix counted is used by some summarized repository, and its count is the number of them that use it |
| BomCommands.UsingAdd | dev/buildtool/bom_commands.py:137 | counting one more name adds one to its own prefix and changes no other count |
| BomCommands.LeaderSpec | dev/buildtool/bom_commands.py:138-143 | the loop's maximum is at least every count, is 0 exactly when no prefix is chosen, and belongs to the prefix chosen |
| BomCommands.LeaderOfCounts | dev/buildtool/bom_commands.py:138-144 | with exact counts, no prefix is chosen only for an empty table; a chosen prefix is used by a summarized repository and by at least as many as any other prefix |
| BomCommands.MostCommonPrefixSpec | dev/buildtool/bom_commands.py:126-144 | KeyError exactly when a summarized name has no repository; None exactly for an empty table; otherwise a prefix no other prefix outnumbers |
| BomCommands.DetermineMostCommonPrefix | dev/buildtool/bom_commands.py:126-144 | the two loops compute the most common prefix specified above |
| BomCommands.CountKeys | dev/buildtool/bom_commands.py:133-137 | the counting loop produces the prefix counts, or the KeyError of the first name without a repository |
| BomCommands.FirstMaximum | dev/buildtool/bom_commands.py:138-143 | the maximum loop keeps the first prefix with a strictly larger count |
| BomCommands.CountByRaise | dev/buildtool/bom_commands.py:134-135 | a KeyError ends the count: later names change nothing |
| BomCommands.AddServiceSpec | dev/buildtool/bom_commands.py:119-124 | the entry lands under its own name, or under both monitoring services for the name ' spinnaker-monitoring'; all other entries are kept |
| BomCommands.MonitoringBranchDead | dev/buildtool/bom_commands.py:119-124 | the repository 'spinnaker-monitoring' is stored under its own name and never as 'monitoring-daemon', because of the blank in the tested name |
| BomCommands.ServicesSpec | dev/buildtool/bom_commands.py:97-124 | one entry per summary name with its commit and '<version>-<build_number>', a 'source' url exactly when its prefix differs from the default; KeyError exactly when a name has no repository |
| BomCommands.MakeBomServicesSpec | dev/buildtool/bom_commands.py:97-124 | the services block is that of the summarized names in sorted order |
| BomCommands.ServicesLoop | dev/buildtool/bom_commands.py:107-124 | the loop builds the services of the given names, in order |
| BomCommands.ServicesRaise | dev/buildtool/bom_commands.py:108-109 | a KeyError ends the services block: later names change nothing |
| BomCommands.ServicesTotal | dev/buildtool/bom_commands.py:108-109 | with every repository present, the services block never raises |
| BomCommands.ArtifactSourcesSpec | dev/buildtool/bom_commands.py:160-176 | gitPrefix and gitBranch (git_branch or 'master') always; debianRepository exactly when a bintray repository is given, as its dl.bintray.com url; dockerRegistry and googleImageProject exactly when truthy |
| BomCommands.BomOfSpec | dev/buildtool/bom_commands.py:146-193 | a BOM exactly when every summarized name has a repository, with the given dependencies, the services and sources under the most common prefix, version '<branch>-<YYYY-MM-DD>-<build>' and the timestamp of now |
| BomCommands.ConstructBom | dev/buildtool/bom_commands.py:146-193 | building the BOM step by step gives the BOM specified above |
| BuildCommands.FirstWhereSpec | dev/buildtool/build_commands.py:64-66 | the scan over start positions finds nothing exactly when no position matches, and otherwise a matching position with no match before it: the leftmost match a regex search reports |
| BuildCommands.FirstWhereAt | dev/buildtool/build_commands.py:64-66 | a matching position with no match before it is the one the scan reports |
| BuildCommands.SearchSummaryFound | dev/buildtool/build_commands.py:64-67 | the `Execution failed for task '(.+)'.*\n` search finds nothing exactly when the pattern matches at no position of the output |
| BuildCommands.ExtractFailureSummaryFound | dev/buildtool/build_commands.py:62-67 | `(None, None)` for a zero return code; for a non-zero one, `(None, None)` exactly when no position of the output matches |
| BuildCommands.SummaryOfLines | dev/buildtool/build_commands.py:69-71 | a matched task is non-empty and holds no newline, and the line after the match holds none either |
| BuildCommands.ExtractFailureSummaryLines | dev/buildtool/build_commands.py:62-74 | the task returned is non-empty and one line long, and so is the line returned with it |
| BuildCommands.SummaryAtParts | dev/buildtool/build_commands.py:64-71 | the marker, at least one character, a quote that is the last on its line and the newline: a match whose task runs to that quote and whose line is the text after the newline |
| BuildCommands.SummaryOfAt | dev/buildtool/build_commands.py:69-71 | the task runs from the marker to the last quote of the line, and the line is the one after the match |
| BuildCommands.NoEarlierSummary | dev/buildtool/build_commands.py:64-65 | where the marker first occurs after some text, no earlier position matches |
| BuildCommands.SearchSummaryOf | dev/buildtool/build_commands.py:64-74 | a report with the marker, a one-line task closed by the line's last quote, and a following line reads back as exactly that task and that line |
| BuildCommands.ExtractFailureSummaryOf | dev/buildtool/build_commands.py:62-74 | for a non-zero return code, gradle's `Execution failed for task '<task>'...` report reads back as that task and the line after it |
| BuildCommands.FirstLineOf | dev/buildtool/build_commands.py:70-71 | the text after the match, up to its first newline, is the line that follows |
| BuildCommands.FirstLineFree | dev/buildtool/build_commands.py:71 | the slice up to the first newline holds no newline, also when `find` returns -1 |
| BuildCommands.HttpCode | dev/buildtool/build_commands.py:106-116 | the status group is three digits |
| BuildCommands.VersionRunEnd | dev/buildtool/build_commands.py:107 | the greedy `[0-9\.]+` run: every character up to its end is a version character, and the one at its end is not |
| BuildCommands.MatchCauseSpec | dev/buildtool/build_commands.py:106-121 | a parsed cause has a non-empty target and a three-digit status |
| BuildCommands.MatchCauseAt | dev/buildtool/build_commands.py:106-116 | on one line, the target runs from the first quote to the first position after it where `': HTTP/<version> <ddd> <word>` matches, and the status is the three digits there |
| BuildCommands.CauseAtParts | dev/buildtool/build_commands.py:107 | a quote, `: HTTP/`, a version run ended by a blank, three digits, a blank and a word character match the HTTP part, whose status is those digits |
| BuildCommands.NoCauseWithoutQuote | dev/buildtool/build_commands.py:107 | the HTTP part opens with a quote, so it matches nowhere in quote-free text |
| BuildCommands.MatchCauseOf | dev/buildtool/build_commands.py:106-121 | `<prefix>'<target>': HTTP/<version> <code> <word>...` with quote-free prefix and target reads back as that target and that code |
| BuildCommands.SuccessLabels | dev/buildtool/build_commands.py:76-87 | a zero return code gives success with every failed_* label '', whatever the output |
| BuildCommands.FailureLabels | dev/buildtool/build_commands.py:76-125 | a non-zero return code: TypeError exactly when the output has no failure summary; otherwise not a success, failed_task the summary's task, failed_reason the three-digit status and failed_by 'bintray' exactly when the target contains 'bintray.com' (else 'unknown'), or both 'unknown' when the line does not parse |
| BuildCommands.LabelMapKeys | dev/buildtool/build_commands.py:78-85 | the counter is always keyed by the same six labels |
| BuildCommands.GradleMetricsUpdater.constructor | dev/buildtool/build_commands.py:47-51 | the updater keeps the metrics registry, the repository's name and the gradle context name |
| BuildCommands.GradleMetricsUpdater.Call | dev/buildtool/build_commands.py:53-60 | labels that raise change nothing; otherwise the GradleOutcome family exists afterwards (no other family changes), the one counter keyed by the labels goes up by exactly one and is returned, and a GradleOutcome family of another type raises TypeError |
| BuildCommands.GradleMetricsUpdater.Record | dev/buildtool/build_commands.py:56-60 | registering keeps an existing family; the counter of the labels is incremented by one, stamped with the time and queued for update, and nothing else is updated |
| BuildCommands.GradleMetricsUpdater.RecordLabels | dev/buildtool/build_commands.py:57-60 | registering the GradleOutcome family keeps an existing one and creates a counter family otherwise; the labels' counter then goes up by exactly one and is queued, or a family of another type raises TypeError and nothing is updated |
| BuildCommands.GradleMetricsUpdater.Count | dev/buildtool/build_commands.py:58-59 | a counter family yields the labels' counter, incremented by one; any other family type raises TypeError and changes nothing |
| BuildCommands.SplitOnOnePart | dev/buildtool/build_commands.py:332 | a text splits on '/' into one part exactly when it holds no '/' |
| BuildCommands.SplitOnPair | dev/buildtool/build_commands.py:337-342 | `<owner>/<repo>` with '/'-free parts splits into exactly owner and repo |
| BuildCommands.SplitOnTwoJoin | dev/buildtool/build_commands.py:337-342 | two parts of a split join back around the one '/', and neither holds a '/' |
| BuildCommands.SplitOnUnique | dev/buildtool/build_commands.py:337-342 | `<owner>/<repo>` equals a two-part '/'-free split only when owner and repo are '/'-free |
| BuildCommands.DebianExtraArgsSpec | dev/buildtool/build_commands.py:323-352 | the options are accepted exactly when both credentials are set and non-empty, the jar repository is a non-empty name without '/' and the bintray repository is `<owner>/<repo>` without further '/'; the arguments then gain the six bintray properties after the ones already there |
| BuildCommands.DebianNeedsOwnerAndRepo | dev/buildtool/build_commands.py:337-341 | without a bintray repository, or with one holding no '/', the options raise |
| SourceCodeManager.HostedName | dev/buildtool/source_code_manager.py:47-53 | a repository made from `<prefix>/<name>` is named by that name |
| SourceCodeManager.TableOfSpec | dev/buildtool/source_code_manager.py:57-58 | a table built from repositories holds exactly their names, each mapped to a repository of that name from the list |
| SourceCodeManager.HostedTableSpec | dev/buildtool/source_code_manager.py:57-69 | a table of hosted repositories holds exactly the given names, each mapped to the repository `<prefix><name>` |
| SourceCodeManager.HostedUnionSpec | dev/buildtool/source_code_manager.py:72-78 | two hosted tables, the second updating the first, hold the names of both, each keyed by its url's tail |
| SourceCodeManager.SpinnakerRunnableRepositoriesSpec | dev/buildtool/source_code_manager.py:57-69 | SPINNAKER_RUNNABLE_REPOSITORIES holds exactly the nine services, each as `https://github.com/spinnaker/<name>` |
| SourceCodeManager.SpinnakerBomRepositoriesSpec | dev/buildtool/source_code_manager.py:72-78 | SPINNAKER_BOM_REPOSITORIES is the runnable set plus spinnaker and spinnaker-monitoring, each keyed by its url's tail, without upstream |
| SourceCodeManager.TwoTable | dev/buildtool/source_code_manager.py:82-87 | a two-entry table holds both repositories under their names |
| SourceCodeManager.SpinnakerTestingRepositoriesSpec | dev/buildtool/source_code_manager.py:82-87 | SPINNAKER_TESTING_REPOSITORIES is spinnaker and google's citest |
| SourceCodeManager.TableNamesFree | dev/buildtool/source_code_manager.py:47-91 | the url prefixes end in '/' and no table name holds one |
| SourceCodeManager.NewManagerSpec | dev/buildtool/source_code_manager.py:142-155 | a manager is made exactly when git, a non-empty root path and a non-empty repository map are given with no unknown keyword (ValueError otherwise); max_threads defaults to 100 and attach_upstream to False |
| SourceCodeManager.LocalRepositoryPathSpec | dev/buildtool/source_code_manager.py:157-159 | the local path of any name, existing or not, is the root path joined with it: under the root and ending with the name |
| SourceCodeManager.MaybePullRepositorySourceSpec | dev/buildtool/source_code_manager.py:183-215 | nothing when none of bom_version, bom_path and git_branch is given, even with a default branch; ValueError when two are given, or when a default branch comes without git_branch; an existing local directory stops the pull; otherwise the one that was given decides between cloning the branch and pulling from the BOM |
| SourceCodeManager.PullSourceFromBomSpec | dev/buildtool/source_code_manager.py:217-250 | the tag is 'version-' plus the BOM version up to its first '-'; an existing directory pulls nothing; the origin is sourceRepository or `<gitPrefix>/<name>` (a non-text gitPrefix formatted as text), and the branch is sourceBranch, else gitBranch, else '(unknown)' |
| SourceCodeManager.MonitoringFromBom | dev/buildtool/source_code_manager.py:219-220 | monitoring-daemon and monitoring-third-party are pulled as spinnaker-monitoring |
| SourceCodeManager.ForeachSourceRepository | dev/buildtool/source_code_manager.py:252-283 | the result's keys are exactly the repository names, each mapped to the function applied to its repository |
| SourceCodeManager.PushToOriginSpec | dev/buildtool/source_code_manager.py:285-294 | nothing is pushed exactly when the upstream url equals the origin url; otherwise the local directory's branch is pushed |
| Command.Subparsers.AddParser | dev/buildtool/command.py:101-104 | the parser made carries the parents and the help text and is filed under the name, replacing any earlier one |
| Command.AddArgumentSpec | dev/buildtool/command.py:45-58 | the flag is `--<name>`; the default is the override in `defaults` when it has the name, else the given default |
| Command.CommandFactory.constructor | dev/buildtool/command.py:70-79 | the factory keeps its name, description, factory method and bound arguments; `parent_arguments` is taken out of the keywords and defaults to no parents |
| Command.CommandFactory.Call | dev/buildtool/command.py:81-89 | the factory method is handed this factory's name, the options and exactly the bound positional and keyword arguments |
| Command.CommandFactory.ParentParsers | dev/buildtool/command.py:101-104 | the parent parsers are found exactly when every named parent is a known parser, in order and one per name; otherwise KeyError for a name that is not known |
| Command.CommandFactory.AddArgparser | dev/buildtool/command.py:91-110 | an unknown parent raises KeyError and changes nothing; otherwise a parser with the parents and the description is filed under the command name and the initialisation hook has run |
| Command.CommandFactory.DoInitArgparser | dev/buildtool/command.py:112-115 | the base hook records that it ran |
| Command.CommandFactory.Register | dev/buildtool/command.py:28-43 | a name already in the registry raises ValueError and changes nothing; an unknown parent raises KeyError and leaves the registry alone; otherwise the registry gains the factory under its name and the parsers gain exactly that name |
| Command.ThreadCount | dev/buildtool/command.py:200-204 | one thread when the options ask for one at a time, otherwise the max_threads keyword, 64 when it is absent |
| Command.RepositoryCommandProcessor.constructor | dev/buildtool/command.py:200-209 | the processor keeps the options, the thread count, use_threadpool (False by default), the given git controller or the default one and the given repositories, with no manager yet |
| Command.RepositoryCommandProcessor.New | dev/buildtool/command.py:200-211 | construction fails with TypeError exactly when a keyword other than the four the processor takes is given |
| Command.RepositoryCommandProcessor.SourceRepositories | dev/buildtool/command.py:181-186 | kept repositories are returned without asking the hook again; otherwise the hook runs once and what it determines is kept |
| Command.RepositoryCommandProcessor.CodeManager | dev/buildtool/command.py:188-198 | a kept manager is returned unchanged; otherwise the manager is made from the git controller, the root path option, the repositories and the thread count, and kept |
| Command.RepositoryCommandProcessor.DoCommand | dev/buildtool/command.py:227-240 | preprocessing comes first, then every repository of the manager, then postprocessing; the result is the postprocessing of the map from each repository name to the hook's result on that repository |
| ValidateBomConfig.Basename | dev/validate_bom__config.py:102-103 | the base name holds no '/' and ends the path |
| ValidateBomConfig.DefaultOptions | dev/validate_bom__config.py:49-66 | the options start at the declared defaults: the three account names, the region us-east-1, and None for every credential and Jenkins option |
| ValidateBomConfig.Namespace.constructor | dev/validate_bom__config.py:409-416 | the options object starts with no `_enabled` attribute set |
| ValidateBomConfig.Namespace.SetEnabled | dev/validate_bom__config.py:125-127 | setting one `_enabled` attribute changes that attribute only |
| ValidateBomConfig.StorageValidation | dev/validate_bom__config.py:71-75 | the storage check sets nothing and raises exactly when the storage type is not gcs, naming that type |
| ValidateBomConfig.AccountValidation | dev/validate_bom__config.py:175-181 | an account check first records whether the credentials are not None, then raises its error exactly when truthy credentials lack a truthy companion option |
| ValidateBomConfig.JenkinsValidation | dev/validate_bom__config.py:277-294 | the Jenkins check passes exactly when the three Jenkins options are all None or all set and a truthy name has the password variable; on passing it records whether the name is not None, on failing it sets nothing and raises ValueError |
| ValidateBomConfig.ValidateAccount | dev/validate_bom__config.py:175-181 | the account check on the options object: the attribute is set, and the error is raised, as AccountValidation says |
| ValidateBomConfig.ValidateOne | dev/validate_bom__config.py:69-384 | one configurator's `validate_options` sets the attributes and raises the error of that configurator's check (for Jenkins, with the password variable name corrected) |
| ValidateBomConfig.ValidateOptions | dev/validate_bom__config.py:409-416 | `validate_options` runs the checks in CONFIGURATOR_LIST order: the first error is raised, and the attributes set by the checks before it are kept |
| ValidateBomConfig.ValidateEach | dev/validate_bom__config.py:413-416 | the loop over the configurators keeps, as invariant, that the attributes set so far plus those of the remaining checks are those of the whole run |
| ValidateBomConfig.PassingChecks | dev/validate_bom__config.py:409-416 | a run of checks passes exactly when every one of its checks passes, and then sets the attributes of all of them |
| ValidateBomConfig.FlagsOfList | dev/validate_bom__config.py:387-396 | a passing CONFIGURATOR_LIST sets the attributes of storage, AWS, Google, Kubernetes and Jenkins, when the last three configurators set none |
| ValidateBomConfig.ListShape | dev/validate_bom__config.py:387-396 | CONFIGURATOR_LIST is storage, AWS, Google, Kubernetes, Jenkins, monitoring, notification, security |
| ValidateBomConfig.QuietChecks | dev/validate_bom__config.py:327-384 | the monitoring, notification and security checks set nothing and raise nothing |
| ValidateBomConfig.ListChecksPass | dev/validate_bom__config.py:387-396 | every check of CONFIGURATOR_LIST passes exactly when storage is gcs, Google credentials have a project, Kubernetes credentials have a registry and the Jenkins options are consistent and have their password (variable name corrected) |
| ValidateBomConfig.ValidationErrorSpec | dev/validate_bom__config.py:409-416 | `validate_options` (with the variable name corrected) passes exactly under those five conditions |
| ValidateBomConfig.ValidationFlagsSpec | dev/validate_bom__config.py:125-294 | a passing validation sets exactly the four `_enabled` attributes, each true exactly when its credentials (for Jenkins, the name) are not None |
| ValidateBomConfig.AccountCheckFlags | dev/validate_bom__config.py:125-227 | the AWS, Google and Kubernetes checks set their attribute to whether the credentials are not None; storage sets none |
| ValidateBomConfig.JenkinsCheckFlags | dev/validate_bom__config.py:294-294 | a passing Jenkins check sets `jenkins_master_enabled` to whether the name is not None |
| ValidateBomConfig.FlagsFromChecks | dev/validate_bom__config.py:409-416 | the attributes of the whole list are the union of the four per-check attributes |
| ValidateBomConfig.StorageConfig | dev/validate_bom__config.py:82-102 | storage configuration succeeds exactly for gcs storage; otherwise it raises NotImplementedError |
| ValidateBomConfig.AwsConfig | dev/validate_bom__config.py:130-149 | AWS configuration never raises and adds lines exactly when the credentials are truthy |
| ValidateBomConfig.AccountConfig | dev/validate_bom__config.py:183-245 | an account configuration succeeds exactly when truthy credentials have a truthy companion, raises its own ValueError otherwise, and adds lines exactly when the credentials are truthy |
| ValidateBomConfig.JenkinsConfig | dev/validate_bom__config.py:296-320 | Jenkins configuration succeeds exactly when the three options, empty ones counting as missing, are all given or all missing and a given name has JENKINS_MASTER_PASSWORD; it adds lines exactly when the name is given |
| ValidateBomConfig.Script.constructor | dev/validate_bom__config.py:419-425 | the script starts empty |
| ValidateBomConfig.Script.Append | dev/validate_bom__config.py:143-149 | appending a line adds it at the end and keeps the lines before |
| ValidateBomConfig.AddStorageConfig | dev/validate_bom__config.py:82-102 | the storage `add_config` appends the storage lines or raises NotImplementedError with the script unchanged |
| ValidateBomConfig.AddAwsConfig | dev/validate_bom__config.py:130-149 | the AWS `add_config` appends the enable, account, chown, mkdir and move lines in that order, or nothing without credentials |
| ValidateBomConfig.AddAccountConfig | dev/validate_bom__config.py:183-245 | the Google or Kubernetes `add_config` appends the two provider lines or raises with the script unchanged |
| ValidateBomConfig.AddJenkinsConfig | dev/validate_bom__config.py:296-320 | the Jenkins `add_config` appends the two Jenkins lines or raises with the script unchanged |
| ValidateBomConfig.AddConfig | dev/validate_bom__config.py:82-384 | one configurator's `add_config` appends its lines, or raises its error with the script unchanged |
| ValidateBomConfig.MakeScript | dev/validate_bom__config.py:419-427 | `make_script` returns the lines of every configurator in CONFIGURATOR_LIST order, or raises the first error |
| ValidateBomConfig.ScriptEach | dev/validate_bom__config.py:424-427 | the loop keeps, as invariant, that the lines written so far followed by those of the remaining configurators make the whole script |
| ValidateBomConfig.PassingScript | dev/validate_bom__config.py:419-427 | a run of `add_config` calls succeeds exactly when each of them succeeds |
| ValidateBomConfig.ScriptOfList | dev/validate_bom__config.py:387-396 | the script of CONFIGURATOR_LIST is the storage, AWS, Google, Kubernetes and Jenkins lines in order when the last three configurators add nothing |
| ValidateBomConfig.QuietContributions | dev/validate_bom__config.py:327-384 | the monitoring, notification and security configurators add no lines |
| ValidateBomConfig.ContributionsCases | dev/validate_bom__config.py:82-320 | each configurator's contribution is its own `add_config` |
| ValidateBomConfig.ScriptErrorSpec | dev/validate_bom__config.py:419-427 | `make_script` succeeds exactly when storage is gcs, Google and Kubernetes credentials have their companions, the Jenkins options are all given or all missing and a given Jenkins name has its password |
| ValidateBomConfig.ScriptOfFive | dev/validate_bom__config.py:387-427 | a successful script of CONFIGURATOR_LIST is the five contributing configurators' lines concatenated in list order |
| ValidateBomConfig.ScriptOrder | dev/validate_bom__config.py:419-427 | a successful script is the storage, AWS, Google, Kubernetes and Jenkins lines concatenated in that order |
| ValidateBomConfig.ValidatedScriptSucceeds | dev/validate_bom__config.py:409-427 | options that pass validation (variable name corrected) and whose Jenkins options agree on being empty produce a script |
| ValidateBomConfig.JenkinsFailsScript | dev/validate_bom__config.py:419-427 | when only the Jenkins configurator raises, the script raises its error |
| ValidateBomConfig.EmptyJenkinsNameGap | dev/validate_bom__config.py:277-310 | an empty Jenkins name given with an address and a user passes validation, yet `make_script` then raises the all-or-none error |
| ValidateBomConfig.AwsEnabledWithoutLines | dev/validate_bom__config.py:125-154 | AWS credentials set to an empty path enable the AWS account but add no lines and no file |
| ValidateBomConfig.FileSet.constructor | dev/validate_bom__config.py:430-437 | the file set starts empty |
| ValidateBomConfig.FileSet.Add | dev/validate_bom__config.py:77-80 | adding a path adds it to the set and keeps the others |
| ValidateBomConfig.AddFilesToUpload | dev/validate_bom__config.py:77-384 | one configurator's `add_files_to_upload` adds exactly its truthy credentials path |
| ValidateBomConfig.GetFilesToUpload | dev/validate_bom__config.py:430-439 | `get_files_to_upload` returns the union of the files of every configurator in CONFIGURATOR_LIST |
| ValidateBomConfig.UploadsEach | dev/validate_bom__config.py:435-439 | the loop keeps, as invariant, that the files added so far plus those of the remaining configurators are the whole set |
| ValidateBomConfig.UploadsMembers | dev/validate_bom__config.py:430-439 | a path is uploaded exactly when some configurator of the list adds it |
| ValidateBomConfig.UploadsSpec | dev/validate_bom__config.py:430-439 | the uploaded files are exactly the truthy storage, AWS, Google and Kubernetes credential paths |
| ValidateBomConfig.ReferencedAll | dev/validate_bom__config.py:419-439 | when every configurator's lines name its files, the script names every uploaded file |
| ValidateBomConfig.ReferencedList | dev/validate_bom__config.py:387-439 | the same for CONFIGURATOR_LIST, from the four configurators that add files |
| ValidateBomConfig.ProviderLineEnds | dev/validate_bom__config.py:143-245 | a provider's account line ends with its last parameter |
| ValidateBomConfig.StorageReferences | dev/validate_bom__config.py:91-94 | the storage line ends with `./` and the base name of truthy storage credentials |
| ValidateBomConfig.AwsReferences | dev/validate_bom__config.py:139-147 | the AWS `chown` line ends with the base name of the credentials |
| ValidateBomConfig.AccountReferences | dev/validate_bom__config.py:190-245 | the Google or Kubernetes account line ends with the base name of the credentials |
| ValidateBomConfig.FilesCases | dev/validate_bom__config.py:77-384 | each configurator's file contribution is its credentials file, and none for Jenkins and the last three |
| ValidateBomConfig.UploadsReferenced | dev/validate_bom__config.py:419-439 | every file `get_files_to_upload` returns is named by its base name at the end of a line of the script `make_script` returns |
| ValidateBomConfig.DefaultConfiguration | dev/validate_bom__config.py:49-439 | with gcs storage and every option at its default, validation passes, the script is the two storage lines, and no file is uploaded |
| ValidateBomConfig.MisspelledCheckRejectsPassword | dev/validate_bom__config.py:291-294 | as written, a set JENKINS_MASTER_PASSWORD without the misspelled variable fails validation, where the corrected check passes |
| ValidateBomConfig.MisspelledCheckAdmitsMissingPassword | dev/validate_bom__config.py:291-306 | as written, only the misspelled variable passes validation, and configuration then raises for the missing password |
| ValidateBomConfig.CorrectedCheckAdmitsConfig | dev/validate_bom__config.py:277-320 | with the corrected variable, a passing Jenkins check and all-or-none options give a Jenkins configuration without error |
| SpectatorClient.StatisticAt | google/stackdriver_monitoring/spectator_client.py:54-58 | the index the Timer loop stops at is the first tag keyed 'statistic', or the length when there is none |
| SpectatorClient.NormalizeNameAndTags | google/stackdriver_monitoring/spectator_client.py:47-59 | returns the normalized name and tags; the instance's own tag list is the one returned, shortened in place, and is untouched when no tags are reported |
| SpectatorClient.NormalizeUntagged | google/stackdriver_monitoring/spectator_client.py:48-50 | absent or empty tags give `(name, None)` whatever the kind |
| SpectatorClient.NormalizeTimer | google/stackdriver_monitoring/spectator_client.py:52-59 | for a Timer the first 'statistic' tag is removed, the other tags keep their order, and the name gains '__' and the tag's value |
| SpectatorClient.NormalizeUnchanged | google/stackdriver_monitoring/spectator_client.py:52-59 | other kinds, and a Timer without a 'statistic' tag, keep their name and tags |
| SpectatorClient.NormalizeNeedsKind | google/stackdriver_monitoring/spectator_client.py:52 | a tagged instance of a metric without 'kind' raises KeyError |
| SpectatorClient.CoversSpec | google/stackdriver_monitoring/spectator_client.py:154-158 | the inner loop of `have_tags` holds exactly when every wanted tag is among the instance's tags |
| SpectatorClient.CoversAbsent | google/stackdriver_monitoring/spectator_client.py:155-156 | against an instance without tags only an empty wanted list passes; any other raises TypeError |
| SpectatorClient.MatchesSomeSpec | google/stackdriver_monitoring/spectator_client.py:152-160 | the outer loop finds a match exactly when some wanted tag list is contained in the instance's tags |
| SpectatorClient.HaveTagsSpec | google/stackdriver_monitoring/spectator_client.py:152-162 | for a non-empty list of wanted tag lists, `have_tags` is true exactly when some list is covered |
| SpectatorClient.HaveTagsEmpty | google/stackdriver_monitoring/spectator_client.py:162 | with no wanted tag list `have_tags` is true |
| SpectatorClient.CoversLoop | google/stackdriver_monitoring/spectator_client.py:155-158 | the inner loop computes Covers, stopping at the first missing tag |
| SpectatorClient.HaveTagsLoop | google/stackdriver_monitoring/spectator_client.py:152-162 | the nested loops compute HaveTags |
| SpectatorClient.KeptSpec | google/stackdriver_monitoring/spectator_client.py:164-167 | the value loop raises exactly when `have_tags` raises on some value; otherwise it keeps exactly the values `have_tags` accepts and no more values than there are |
| SpectatorClient.KeepValues | google/stackdriver_monitoring/spectator_client.py:151-167 | the value loop computes Kept, appending accepted values in order |
| SpectatorClient.TagLists | google/stackdriver_monitoring/spectator_client.py:147 | the wanted tag lists are the prototype values' tags, in order |
| SpectatorClient.FilterOne | google/stackdriver_monitoring/spectator_client.py:139-173 | the body of the prototype loop computes FilterMetric for one metric name |
| SpectatorClient.FilterMetrics | google/stackdriver_monitoring/spectator_client.py:128-177 | raises exactly when some prototype metric's filtering raises, with that error; otherwise returns the instance's other fields with the metrics the prototype selects |
| SpectatorClient.FilteredNames | google/stackdriver_monitoring/spectator_client.py:137-141 | a kept metric is named by the prototype and present and non-empty in the instance |
| SpectatorClient.FilterWholeMetric | google/stackdriver_monitoring/spectator_client.py:142-145 | a prototype metric without values keeps the instance's whole metric |
| SpectatorClient.FilterValues | google/stackdriver_monitoring/spectator_client.py:142-173 | with prototype values, the metric is kept exactly when some value's tags contain every tag of some prototype tag list, and then its values are exactly those values and its kind is unchanged |
| SpectatorClient.IngestedSpec | google/stackdriver_monitoring/spectator_client.py:219-226 | after ingesting, m[k][service] is the service's metric k for each of its metrics; other names and other services' entries are unchanged |
| SpectatorClient.IngestCommutes | google/stackdriver_monitoring/spectator_client.py:219-226 | ingesting two different services gives the same map in either order |
| SpectatorClient.TypeMap.constructor | google/stackdriver_monitoring/spectator_client.py:230 | the type map starts empty |
| SpectatorClient.TypeMap.Ingest | google/stackdriver_monitoring/spectator_client.py:219-226 | a document without 'metrics' raises KeyError and changes nothing; otherwise the map becomes Ingested of the old map |
| SpectatorClient.TypeMapAdd | google/stackdriver_monitoring/spectator_client.py:228-234 | adding a present service to a service map ingests its metrics into the type map |
| SpectatorClient.TypeMapSkip | google/stackdriver_monitoring/spectator_client.py:231-232 | a service whose document is None leaves the type map unchanged |
| SpectatorClient.ServiceMapToTypeMap | google/stackdriver_monitoring/spectator_client.py:228-234 | raises KeyError exactly when a present document lacks 'metrics'; otherwise returns TypeMapOf, the map built by ingesting each present service |
| SpectatorClient.TypeMapOfTwo | google/stackdriver_monitoring/spectator_client.py:228-234 | the type map of two services equals ingesting one and then the other into an empty map |
| SpectatorClient.VisitValues | google/stackdriver_monitoring/spectator_client.py:28-33 | a metric without 'values' raises KeyError; otherwise each value is visited once, in order |
| SpectatorClient.VisitService | google/stackdriver_monitoring/spectator_client.py:41-44 | one service's visits are distinct and are exactly the values of its metrics; a metric without 'values' raises KeyError |
| SpectatorClient.ForeachMetricInServiceMap | google/stackdriver_monitoring/spectator_client.py:36-44 | succeeds exactly when every present service has 'metrics' and each metric has 'values'; then each value of each metric of each present service is visited exactly once, and None services are skipped |
| MetricCollectorHandlers.AcceptsHtml | google/stackdriver_monitoring/metric_collector_handlers.py:19-25 | a request without headers gives False; with headers the answer is None exactly when the accept header is missing or empty |
| MetricCollectorHandlers.AcceptsHtmlItems | google/stackdriver_monitoring/metric_collector_handlers.py:22-25 | a non-empty accept header of comma-free items accepts HTML exactly when 'text/html' is one of its items |
| MetricCollectorHandlers.SpacedItemIsMissed | google/stackdriver_monitoring/metric_collector_handlers.py:25 | 'text/html' after a comma and a space is not recognised, as items are not trimmed |
| MetricCollectorHandlers.ParamsToQuery | google/stackdriver_monitoring/metric_collector_handlers.py:32-34 | the query is empty exactly when there are no parameters, and otherwise starts with '?' |
| MetricCollectorHandlers.ParamsToQueryParts | google/stackdriver_monitoring/metric_collector_handlers.py:32-34 | for parameters free of '&' (and '=' in keys) the query splits at '&' into one 'key=value' per parameter, in order, each splitting at its first '=' back into the key and the value |
| MetricCollectorHandlers.TagDictKeys | google/stackdriver_monitoring/metric_collector_handlers.py:102-103 | a point's tag dict binds exactly the names of its tags and never None |
| MetricCollectorHandlers.TagDictLast | google/stackdriver_monitoring/metric_collector_handlers.py:102-103 | a name is bound to the value of its last tag |
| MetricCollectorHandlers.TagMapOfSpec | google/stackdriver_monitoring/metric_collector_handlers.py:102-105 | a point without tags is recorded as {None: None}, a tagged one by its tag dict |
| MetricCollectorHandlers.ServiceTagsStep | google/stackdriver_monitoring/metric_collector_handlers.py:106-113 | handling one more metric name adds its service column exactly when some service has a point for it |
| MetricCollectorHandlers.ActiveStep | google/stackdriver_monitoring/metric_collector_handlers.py:99 | handling one more metric name adds each of its services to the active set |
| MetricCollectorHandlers.TagPoints | google/stackdriver_monitoring/metric_collector_handlers.py:100-105 | raises TypeError exactly when the values are missing or a point has no tags; otherwise one tag dict per point, in order |
| MetricCollectorHandlers.TagColumn | google/stackdriver_monitoring/metric_collector_handlers.py:98-113 | raises TypeError exactly when some service's values are missing or untagged; otherwise the services with points, each with its points' tag dicts |
| MetricCollectorHandlers.ToServiceTagMap | google/stackdriver_monitoring/metric_collector_handlers.py:92-115 | raises TypeError exactly when some metric cannot be tabulated; otherwise returns ServiceTags and ActiveServices |
| MetricCollectorHandlers.ServiceTagsSpec | google/stackdriver_monitoring/metric_collector_handlers.py:92-115 | a metric name is present exactly when some service has a point for it, and then each such service lists one tag dict per point, in order |
| MetricCollectorHandlers.ActiveServicesSpec | google/stackdriver_monitoring/metric_collector_handlers.py:95-99 | every service of every metric name is active, including services without points |
| MetricCollectorHandlers.CellEmpty | google/stackdriver_monitoring/metric_collector_handlers.py:125-127 | a tag name never added has empty sets |
| MetricCollectorHandlers.AddEntry | google/stackdriver_monitoring/metric_collector_handlers.py:125-127 | adding a value for a tag in an in-range column extends exactly that set, creating the tag's row of empty sets when it is new |
| MetricCollectorHandlers.AddGroup | google/stackdriver_monitoring/metric_collector_handlers.py:124-127 | raises IndexError exactly when the tag dict is non-empty and the column is past the end; otherwise adds each binding in the service's column |
| MetricCollectorHandlers.ServiceEntriesStep | google/stackdriver_monitoring/metric_collector_handlers.py:123-127 | one more tag dict adds its bindings |
| MetricCollectorHandlers.AddService | google/stackdriver_monitoring/metric_collector_handlers.py:123-127 | raises IndexError exactly when some tag dict is non-empty and the column is past the end; otherwise adds every binding of the service |
| MetricCollectorHandlers.EntriesOfStep | google/stackdriver_monitoring/metric_collector_handlers.py:120-127 | one more service adds its bindings in its column |
| MetricCollectorHandlers.ToTagServiceMap | google/stackdriver_monitoring/metric_collector_handlers.py:117-129 | raises KeyError for a service without a column or IndexError for a column past the end, and otherwise builds the map of every binding of every service |
| MetricCollectorHandlers.TagServiceMapSpec | google/stackdriver_monitoring/metric_collector_handlers.py:117-129 | a tag name has a row exactly when some service binds it; the row has one set per column, and a value is in column c exactly when a service in column c binds the tag to it |
| MetricCollectorHandlers.TagValueEquality | google/stackdriver_monitoring/metric_collector_handlers.py:176-180 | equality is equality of the key and the value, symmetric, and equal tag values hash alike |
| MetricCollectorHandlers.TagValueText | google/stackdriver_monitoring/metric_collector_handlers.py:185-186 | the text 'key=value' gives back the key and the value when the key has no '=' |
| MetricCollectorHandlers.TagValueTextAmbiguous | google/stackdriver_monitoring/metric_collector_handlers.py:185-186 | two different tag values print alike when a key holds '=' |
| HttpServer.DecodeRequest | google/stackdriver_monitoring/http_server.py:38-49 | the parameter loop computes Decode: each '&' part split at its first '=', a later key overriding |
| HttpServer.DecodeNoQuery | google/stackdriver_monitoring/http_server.py:40-42 | there is no fragment exactly when the request has no '?' or ends at its first '?', and then the whole request is the path with no parameters |
| HttpServer.DecodeWithFragment | google/stackdriver_monitoring/http_server.py:40-49 | the path is the text before the first '?', the query the text up to the first '#', and the fragment the rest |
| HttpServer.DecodeWithoutFragment | google/stackdriver_monitoring/http_server.py:40-49 | a non-empty query without '#' gives the fragment '' and its parameters |
| HttpServer.EmptyQueryKey | google/stackdriver_monitoring/http_server.py:41-47 | a query that is only a fragment still yields the parameter '' bound to '' |
| HttpServer.ParametersKeys | google/stackdriver_monitoring/http_server.py:45-47 | the parameters bind exactly the texts before the first '=' of the parts |
| HttpServer.ParametersLast | google/stackdriver_monitoring/http_server.py:45-47 | a key is bound to the value of its last part |
| HttpServer.ParametersOfAssignments | google/stackdriver_monitoring/http_server.py:45-47 | reading back the 'key=value' assignments of plain parameters rebuilds their dict |
| HttpServer.QueryRoundTrip | google/stackdriver_monitoring/http_server.py:38-49 | decoding a path without '?' followed by the query of plain parameters gives back the path, the parameters' dict and fragment ''; with no parameters the path alone, with no fragment |
| HttpServer.TriesMembers | google/stackdriver_monitoring/http_server.py:56-61 | the keys tried from an offset are the path cut there and the path cut at each earlier '/' |
| HttpServer.TriesShrink | google/stackdriver_monitoring/http_server.py:56-61 | each tried key is a prefix of the path, and each is shorter than the one before |
| HttpServer.CandidatesSpec | google/stackdriver_monitoring/http_server.py:56-61 | exactly the whole path and the texts before its '/'s are tried, longest first |
| HttpServer.FirstInSpec | google/stackdriver_monitoring/http_server.py:58-62 | the lookup returns the handler of the first registered key, and none when no key is registered |
| HttpServer.RouteNone | google/stackdriver_monitoring/http_server.py:54-64 | a path is unknown exactly when none of the keys it can try is registered |
| HttpServer.RouteLongest | google/stackdriver_monitoring/http_server.py:54-66 | a known path goes to the handler of the longest registered key it can try |
| HttpServer.RouteExact | google/stackdriver_monitoring/http_server.py:56-59 | a path registered as it is goes to its own handler |
| HttpServer.RootKey | google/stackdriver_monitoring/http_server.py:56-61 | the key '/' is tried only for the path '/' itself or a path starting with '//' |
| HttpServer.PathHandlers.constructor | google/stackdriver_monitoring/http_server.py:80 | the class-level registry starts empty |
| HttpServer.PathHandlers.Register | google/stackdriver_monitoring/http_server.py:82-85 | the given handlers are merged in, overriding keys already registered; None adds nothing |
| HttpServer.PathHandlers.Lookup | google/stackdriver_monitoring/http_server.py:55-62 | the while loop computes Route: it stops at the first registered key or when rfind finds no '/' |
| HttpServer.PathHandlers.DoGet | google/stackdriver_monitoring/http_server.py:54-66 | replies 404 'Unknown' exactly when no handler is found; otherwise calls the found handler with the decoded path, parameters and fragment |
| StackdriverHandlers.RootOfCustom | google/stackdriver_monitoring/stackdriver_handlers.py:35-36 | the root of a custom type is the text after CUSTOM_PREFIX |
| StackdriverHandlers.RootIgnoresPrefix | google/stackdriver_monitoring/stackdriver_handlers.py:35-36 | the slice does not check the prefix: any text of its length is cut off |
| StackdriverHandlers.CompareTypes | google/stackdriver_monitoring/stackdriver_handlers.py:32-39 | raises KeyError exactly when a descriptor has no 'type' |
| StackdriverHandlers.CompareSpec | google/stackdriver_monitoring/stackdriver_handlers.py:32-39 | the answer is 0 exactly for equal roots, -1 exactly when the first root sorts first, and 1 exactly when the second does |
| StackdriverHandlers.CompareAntisymmetric | google/stackdriver_monitoring/stackdriver_handlers.py:32-39 | swapping the descriptors negates the answer |
| StackdriverHandlers.CompareTransitive | google/stackdriver_monitoring/stackdriver_handlers.py:32-39 | the order the comparator gives is transitive |
| StackdriverHandlers.CompareCustom | google/stackdriver_monitoring/stackdriver_handlers.py:32-39 | custom types compare by their names after the prefix |
| StackdriverHandlers.LabelNames | google/stackdriver_monitoring/stackdriver_handlers.py:64 | the label keys in order, or KeyError when a label has no key |
| StackdriverHandlers.CollectRows | google/stackdriver_monitoring/stackdriver_handlers.py:59-66 | the loop computes Rows, appending one row per descriptor |
| StackdriverHandlers.RowsSpec | google/stackdriver_monitoring/stackdriver_handlers.py:59-66 | succeeds exactly when every descriptor has a type and every label a key; then one row per descriptor in order, with the type's root and the label keys in order, [] without labels |
| StackdriverHandlers.EscapeSpec | google/stackdriver_monitoring/stackdriver_handlers.py:133-139 | the escaped text holds no '<' or '>', and text without '&', '<' or '>' is unchanged |
| StackdriverHandlers.CountOkAll | google/stackdriver_monitoring/stackdriver_handlers.py:136 | every reply succeeded exactly when all of them are counted |
| StackdriverHandlers.ReplayCounts | google/stackdriver_monitoring/stackdriver_handlers.py:122-139 | with valid ids in any order no callback raises, the slots keep their number, and num_ok grows by exactly the successful replies |
| StackdriverHandlers.ReplayInOrder | google/stackdriver_monitoring/stackdriver_handlers.py:122-139 | replies to consecutive requests fill exactly their slots with 'ERROR …' or 'OK …' and leave the others alone |
| StackdriverHandlers.HandleAt | google/stackdriver_monitoring/stackdriver_handlers.py:131-139 | a reply to an in-range request fills its slot and counts a success exactly when there is no error |
| StackdriverHandlers.ResponseCode | google/stackdriver_monitoring/stackdriver_handlers.py:157 | 200 exactly when num_ok equals the number of descriptors, else 500 |
| StackdriverHandlers.ClearOutcome | google/stackdriver_monitoring/stackdriver_handlers.py:141-157 | one reply per request in order: every slot holds its reply's line, num_ok counts the successes, and the code is 200 exactly when every delete succeeded |
| StackdriverHandlers.BatchResponseHandler.constructor | google/stackdriver_monitoring/stackdriver_handlers.py:113-120 | one None slot per expected response and no success |
| StackdriverHandlers.BatchResponseHandler.HandleBatchResponse | google/stackdriver_monitoring/stackdriver_handlers.py:122-139 | a non-decimal id raises ValueError; an error fills the slot with 'ERROR …'; a success is counted and then fills the slot with 'OK …'; an index past the end raises IndexError, after counting a success |
| StackdriverHandlers.Deliver | google/stackdriver_monitoring/stackdriver_handlers.py:145-155 | the callbacks of the run batches update the handler as Replay does, stopping at an exception |
| StackdriverHandlers.DescriptorNames | google/stackdriver_monitoring/stackdriver_handlers.py:107 | the descriptor names in order, or KeyError when one has no 'name' |
| StackdriverHandlers.RequestIds | google/stackdriver_monitoring/stackdriver_handlers.py:144-147 | every request id reads back as the request's position |
| StackdriverHandlers.ChunksFlatten | google/stackdriver_monitoring/stackdriver_handlers.py:141-155 | the batches run hold every request once, in order |
| StackdriverHandlers.ChunksSizes | google/stackdriver_monitoring/stackdriver_handlers.py:141-155 | each batch holds 1 to 100 requests, all but the last exactly 100 |
| StackdriverHandlers.ChunksCount | google/stackdriver_monitoring/stackdriver_handlers.py:148-155 | there are count / 100 full batches and a final one exactly when count % 100 is not 0, holding count % 100 requests |
| StackdriverHandlers.AddDelete | google/stackdriver_monitoring/stackdriver_handlers.py:142-151 | one turn adds request `count` to the open batch; after every 100th request that batch is executed and a new one is opened, and the batching state is kept |
| StackdriverHandlers.SendDeletes | google/stackdriver_monitoring/stackdriver_handlers.py:141-155 | the batches run are Chunks of the requests, request i having id str(i) |

## Left out

- JSON text encoding and decoding: a response body is given already decoded, as `Option<Json>`, `None` standing for text that does not decode; payloads are built as JSON values rather than encoded strings.
- Python 2 leaves the order of a dict's keys open; where the source iterates a dict's keys, the model takes them in sorted order.
- `str()` of a response object is an input (`shown`), not a rendering the model computes.
- ExpressionDict.Resolve: the resolution chain `saw` is a list in the source and a set here; only membership is ever tested.
- ExpressionDict.New: the interpreter is any total function from text to a value; an interpreter that raises is not modelled.
- YamlUtil: the nested mappings are values, so the aliasing of the source (an imported dictionary is stored by reference and later imports mutate it) is not modelled; `import_string` and `import_path` (YAML parsing, file reading) are left out.
- YamlUtil.GetValueLoop: the reference substitution is modelled as written, including the pattern's `0-0` class (only the digit 0 after the first key character) and the use of `match.pos`/`match.endpos`, which drops the text around references; `saw` is a set, as only membership is tested.
- ScrapeSpringConfig: the HTTP fetch of `scrape_spring_config` is left out; `infer` takes the decoded document. `str()` of a non-string JSON value is an input function. Python 2 dict order is taken as sorted names, which matters only when two names re-key to the same key.
- ScrapeSpringConfig.Update: a layer that is not a JSON object raises TypeError; Python's `dict.update` would also accept a list of key/value pairs or an empty string or list.
- ConfigureUtil: reading the configuration file is left out (`update_from_config` takes its text); `load_bindings` (unresolved merge-conflict lines and a metadata-server fetch) and `get_yaml` (which reads an attribute nothing sets) are not modelled.
- ConfigureUtil.Bindings.ReplaceVariables: the bound names are taken in sorted order; a name that is a prefix of another is rewritten as written (the plain replace of '$A' also hits '$AB'); regular-expression metacharacters in names and backslash escapes in values (which `re.sub` would interpret) are not modelled, each name standing for itself and each value for its own text.
- BaseMetrics: the locks (apart from the timer's, modelled to show the deadlock in `time`), the pusher thread (`start_pusher_thread`, `stop_pusher_thread`, `flush_every_loop`) and `flush_final_metrics`, whose only effect is a hook call, are left out; time is an input.
- BaseMetrics.Registry.Time: models `time` with the observation outside the timer's lock; as written the call deadlocks, which only BaseMetrics.TimeAsWrittenBlocks states (see Findings).
- BaseMetrics: a gauge's `compute` function and the `value_type` argument are not modelled; a gauge holds its own value.
- BaseMetrics: `instrument_track_and_outcome` is not modelled; it composes registration, `track` and `observe`, which are, with a caller-supplied label callback.
- BaseMetrics: the `_do_make_*_family` hooks are abstract in the source; the model's registry builds the family itself, holding its label names as the Prometheus family does.
- BaseMetrics: labels are string-valued maps; `str()` of a non-string label value is not modelled. Python 2 dict order is taken as sorted keys when the label key is built.
- BaseMetrics.Registry.Metric: the TypeError's message text (the family's `str()`) is abstracted to the family type name.
- BaseMetrics.Registry.FlushUpdatedMetrics: `_do_flush_updated_metrics` writes to a metrics server; the model records each flushed set in order.
- PrometheusMetrics: `PrometheusMetricsRegistry` (the `prometheus_client` registry, `collect` and `push_to_gateway`) is left out; only the family encoding is modelled, with `add_metric` recorded as a sample.
- Git: every `git` subprocess is left out; its output is an input. `GitRunner` operations that only run commands (`query_local_repository_commit_id`, `query_local_repository_branch`, `push_branch_to_origin`, `refresh_local_repository`, `clone_repository_to_path`, `tag_head`, `reinit_local_repository_with_tag`), `determine_remote_git_repository` and `RepositorySummary.to_yaml` are not modelled.
- Git: `CommitTag.version` (a `LooseVersion`) is dropped; tags are ordered by their text, as `CommitTag.__lt__` does. The tag query takes the fixed pattern `collect_repository_summary` passes, not an arbitrary regular expression.
- Git.SemverImplication: only the default MAJOR, MINOR and PATCH patterns and the default index are modelled, not caller-supplied patterns.
- Git: Python's `int()` on a matched digit run is modelled as decimal reading; Unicode digits are not modelled.
- AnnotateSource: `delete_unwanted_tags` and `create_stable_branch` only run `git` commands and are left out; the `Refresher` base class, argument parsing and `main` are not modelled.
- AnnotateSource.DetermineNextTag: the IOError raised when the hash and message lists differ in length cannot happen (one message is read per hash) and is not modelled; nor is the `-1` check after `str.index`, which raises instead of returning -1.
- AnnotateSource.BumpOf: `int()` also accepts a sign, surrounding blanks and underscores; the model reads plain digit runs only.
- AnnotateSource: `$` in the build-tag pattern also matches before a final newline; tags never hold one, as they come from split lines.
- BuildUtil: the subprocess helpers, `unused_port`, `maybe_log_exception`, `ensure_dir_exists`, `write_to_path` and `add_parser_argument` perform I/O or parsing setup and are left out; the clock is an input to `timestring`.
- BuildUtil.TimedeltaString: `total_seconds()` is a float in the source; the model computes whole seconds exactly, which differs only for durations beyond a float's precision.
- BuildUtil.Timestring: the year is printed with `str`, without the zero padding `%Y` gives years below 1000.
- Spinnaker: `new_gce_instance`, `new_native_instance` and the deployed-configuration readers talk to the network or to cloud tools and are left out; `PlanAgent` stops at the choice of factory and base URL.
- Spinnaker: `SpinnakerStatus.__str__` and the scribe rendering are not modelled.
- Kato: `new_agent` builds a network agent and is left out; `make_payload` is the document itself, its JSON encoding left out.
- Changelog: `GenerateChangelogCommand`, its factory, `PublishChangelogCommand` and `register_commands` gather summaries through `git`, read and write files and open pull requests; they are left out.
- Changelog: `sorted(entries)` uses the Python 2 `__cmp__` of the entries, which compares repository names; the model sorts stably by name, as that comparison does.
- Changelog.NewChangelogBuilder: keyword values are booleans, and the KeyError's message, which lists the leftover keys, is abstracted to its fixed prefix.
- Changelog.SectionOf: each line is matched on its own, so a '*' bullet whose blanks run on into the next line is not modelled; Python's `\s` is taken as ASCII whitespace.
- Changelog: `_sort_partition` compares components as Python 2 does, None before every string and strings by code point.
- BomCommands: `GenerateBomCommand`'s `_do_*` steps, the factories, `PublishBomCommand` (halyard and HTTP), `register_commands` and the YAML dump are left out; the repositories, the summary table and the clock are inputs (`construct_bom` takes `utcnow()` as `now`). `DEFAULT_BOM_DEPENDENCIES` is a constant passed in as the dependencies.
- BomCommands.UrlPrefix: modelled as written: a url without '/' loses its last character, as `url[:-1]` does.
- BomCommands.ServicesSpec: stated for tables without the name ' spinnaker-monitoring' (blank first), which no repository name carries; AddServiceSpec states what that entry would do.
- BomCommands.MostCommonPrefix: Python 2 leaves the order of the summary table and of the counts open; the model counts in sorted name order and scans the prefixes in sorted order, so ties go to the smallest prefix.
- BuildCommands: the gradle, docker and GCB command bodies, `_make_gradle_args`, the factories and `register_commands` run builds and are left out, as is the debug logging; the environment is an input map and gradle's output an input text.
- BuildCommands: the regular expressions are modelled as position scans (`FirstWhere` over the start positions), `\w` as ASCII word characters.
- BuildCommands.DetermineLabels: the `success` label is a Python bool in the source; the counter's labels show it as Python prints it, 'True' or 'False'. The labels dict that `update_failure_cause` mutates is a value the model returns updated.
- BuildCommands.UpdateFailureCause: the TypeError `re.match` raises on None is modelled with a fixed message.
- BuildCommands.DebianExtraArgs: returns the extended argument list where the source extends the caller's list in place.
- SourceCodeManager: `bom_from_path` and `bom_from_version` read a file or run halyard, and the clone, retag and push calls run git; the model returns what it would ask of git (`PullRequest`, `BomPull`, `Push`), takes whether a path exists as an input, and leaves out `ensure_dir_exists` and the logging.
- SourceCodeManager.ForeachSourceRepository: only the single-thread path is modelled; the thread pool maps the same worker over the repositories, keyed by each repository's own name, which is the table key in every table here.
- SourceCodeManager.NewManager: the git controller is any value, `None` standing for a missing one; the message listing unexpected keywords is abstracted.
- SourceCodeManager.PullSourceFromBom: a version that is not text raises AttributeError (a list's `index` is not modelled); the snapshot commit message is not rendered, the plan records commit, url and branch.
- Command: argparse is modelled as a map from parser name to the parser's parents and help text; the arguments a derived factory adds are not modelled, only `add_argument`'s flag and default.
- Command: `CommandProcessor.__call__` only logs around `_do_command` and re-raises, and the base `_do_command` raises NotImplementedError; neither is modelled apart from the processor's own `_do_command`.
- Command.RepositoryCommandProcessor.DoCommand: the `_do_repository`, `_do_preprocess` and `_do_postprocess` hooks are given as functions (`fn`, `post`; preprocessing is recorded in the trace only), so a hook that raises is not modelled; the thread-pool path maps the same hook and is left out as in ForeachSourceRepository.
- Command.RepositoryCommandProcessor.New: `GitRunner()` is the `defaultGit` parameter, the options are reduced to the two attributes read (`one_at_a_time`, `root_path`), and the TypeError message is abstracted.
- Command: `_do_determine_source_repositories` is the `determine` value (NotImplementedError in the base class), and `filter_repositories`, which returns its argument unchanged, is not modelled.
- ValidateBomConfig: the argparse declarations (`init_argument_parser`, help texts, `choices=['gcs']`, `required=True`) are reduced to DefaultOptions; `google_deploy_project` is declared elsewhere and is a given option.
- ValidateBomConfig: `os.environ` is the `env` map parameter; only membership of the password variables is read, and the password itself is not used.
- ValidateBomConfig.Basename: `os.path.basename` is modelled as the text after the last '/' only.
- ValidateBomConfig.ValidateOptions: the misspelled variable of the Jenkins check is corrected in ValidationOf, so ValidateOptions, ValidateOne, ListChecksPass and ValidationErrorSpec describe the intended check; the check as written is JenkinsValidation with MisspelledPasswordVariable (see Findings).
- ValidateBomConfig.ValidatedScriptSucceeds: requires the Jenkins options to agree on being empty (JenkinsAllOrNone), because validation tests them against None only; EmptyJenkinsNameGap shows the case this excludes.
- ValidateBomConfig: the module-level `init_argument_parser` loop only registers options and is not modelled.
- SpectatorClient: `collect_metrics`, `scan_by_service` and `scan_by_type` fetch over HTTP in threads, and the constructor reads files and the environment; none is modelled, nor `add_standard_parser_arguments` and `DEFAULT_SERVICE_PORT_MAP`.
- SpectatorClient: Spectator documents are typed; a metric keeps only 'kind' and 'values', so its other keys are not carried through the filter, and JSON null where a list or dict is expected is not modelled.
- SpectatorClient.ForeachMetricInServiceMap: the visitor is not called; the method returns the visits in call order, each with the value's position so that equal values stay apart, and the extra visitor arguments are not modelled.
- SpectatorClient.FilterMetrics: the prototype metrics are taken in an unspecified order, as Python 2's dict order is; when several raise, the contract names only that the error is one of theirs.
- metric_collector_handlers.py's HTML rendering (to_html and the handlers' `__call__` methods, TagValue.as_html) is not modelled: it only formats text and responds.
- millis_to_time is not modelled: it depends on the local time zone.
- MetricCollectorHandlers.Request: headers are looked up by the lower-case name 'accept'; case-insensitive header lookup is not modelled.
- MetricCollectorHandlers.ParamsToQuery: the parameter dict is given as a sequence of pairs in its iteration order.
- MetricCollectorHandlers.ToServiceTagMap: the source walks names and services in sorted order; the model takes them in any order, which gives the same maps and set.
- MetricCollectorHandlers.ToTagServiceMap: column indices are natural numbers; Python's negative list indices are not modelled.
- MetricCollectorHandlers.TagValue.Hash: Python's hash of a pair is a parameter.
- http_server.py's `build_html_document`, `respond`, `do_HEAD` and StdoutRequestHandler only format and write responses, and are not modelled; neither is the socket the server binds.
- HttpServer.PathHandlers: handlers are values of a type parameter; calling one is recorded as a Dispatch outcome.
- HttpServer.Decode: like the source, it does no percent-decoding.
- stackdriver_handlers.py's request handlers (`__call__`, `descriptors_to_html`, `descriptors_to_text`, the cleared-series page) only fetch, sort, format and respond, and are not modelled; neither is its `accepts_html`, a substring test on the accept header.
- StackdriverHandlers.CompareTypes: sorting the descriptor list with it is not modelled; the comparator's order properties are.
- StackdriverHandlers.BatchResponseHandler.HandleBatchResponse: `int()` accepting a sign, spaces or underscores is not modelled (request ids are `str(count)`); the response and the error are given as texts, and logging is left out.
- StackdriverHandlers.Deliver: the batch's HTTP execution is outside the model; the replies are an input, delivered in order.
- StackdriverHandlers.SendDeletes: the delete invocations are recorded as the batches run, not performed.

## Findings

| source | as written | input that shows it | evidently intended | confidence | as-written member | corrected member |
|---|---|---|---|---|---|---|
| dev/buildtool/prometheus_metrics.py:87-99 | a COUNTER family is encoded by reading `instance.value` | any COUNTER family holding one counter: `Counter` has `count` but no `value`, so `encode` raises AttributeError | read `instance.count` for counters | high, not executed | PrometheusMetrics.CounterFamilyEncodeRaises | PrometheusMetrics.CounterFamilyEncodeCorrected |
| dev/annotate_source.py:180,244-245 | `determine_next_tag` returns the `--next_tag` text itself, and `tag_head` reads `.version_str` from what it returns | an annotator with `--next_tag` 'version-2.0.0' whose newest build tag is not on HEAD: a string has no `version_str`, so `tag_head` raises AttributeError | use the given tag as the version string | high, not executed | AnnotateSource.TagHeadAsWritten, AnnotateSource.GivenTagBreaksTagHead | AnnotateSource.TagHead, AnnotateSource.TagHeadWritesBothTags |
| dev/validate_bom__config.py:291-294 | the Jenkins check of `validate_options` looks up JEKNINS_MASTER_PASSWORD, while `add_config` reads JENKINS_MASTER_PASSWORD | Jenkins name, address and user given with only JENKINS_MASTER_PASSWORD set: validation raises; with only JEKNINS_MASTER_PASSWORD set: validation passes and `add_config` raises | look up JENKINS_MASTER_PASSWORD, as the error message says | high, not executed | ValidateBomConfig.MisspelledCheckRejectsPassword, ValidateBomConfig.MisspelledCheckAdmitsMissingPassword | ValidateBomConfig.CorrectedCheckAdmitsConfig, ValidateBomConfig.ValidationErrorSpec |
| dev/buildtool/base_metrics.py:338-346 | `time` calls `timer.observe` in its `finally` while still inside `with timer.mutex:`, and `observe` enters `with self.mutex:` on the same plain `threading.Lock` | any call of `time` on a registered timer: the second acquire waits forever, so neither the outcome nor the observation is ever seen | observe the elapsed time after leaving the lock (or use a re-entrant lock) | high, not executed | BaseMetrics.TimeAsWrittenBlocks | BaseMetrics.TimeReturns, BaseMetrics.Registry.Time |

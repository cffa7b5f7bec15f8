# Flow compilers of Reuse_at_Scales_Experiments, modelled in Dafny

The repository turns one parsed pipeline configuration into Argo `Workflow`
documents. The configuration has stage definitions, pipelines whose flow is
a list of blocks, and a `Deployment` section. It does this in four ways:

- `generate_argo_with_parallel` (`pipeline/parser_noreuse.py`) gives every
  stage occurrence its own container template. A per-pipeline counter
  numbers repeated stages.
- `generate_argo_with_reuse` (`pipeline/parser_reuse.py`) gives every
  occurrence a curl template. The template posts to the stage's service,
  using input and output directories built by `generate_unique_path` from a
  fresh uuid.
- `NoReuseArgoGenerator` (`pipeline/auto-argo-generator/no_reuse_generator.py`)
  emits a `main` steps template with one step per occurrence, named after
  the occurrence's object identity. It also emits one template per stage
  name.
- `ReuseAwareArgoGenerator` (`pipeline/auto-argo-generator/reuse_generator.py`)
  hashes each occurrence's stage and sorted parameters. Occurrences with a
  hash seen before in the pipeline reuse the first one's step name. A
  stage's template is (re)assigned only when a new hash appears.

Both generators share `_hash_stage`, `_get_stage_params`, `_base_workflow`
and `_create_template` from `base_generator.py`.

Every exception the compilers raise on a configuration the datatypes can
represent becomes a `Failure` value naming the missing key, the unknown
stage, or the bare flow entry that a generator indexed as a mapping ("## Left
out" lists the configurations they cannot represent). Every loop is an instance of one generic fold
(`Fold.Run`, `Fold.Blocks`): the first failure ends the loop, and every
compiler's result is proved equal to an independent reference description
of it. The modules are:

- `Text`: decimal rendering and Python string order.
- `Config`: the configuration.
- `OrderedMap`: the insertion-ordered dict.
- `Argo`: the workflow document.
- `Fold`: the generic loops.
- `NoReuseParser` and `ReuseParser`: the two parsers.
- `BaseGenerator`, `NoReuseGenerator` and `ReuseGenerator`: the generators.

## Model

| member | source | states |
|---|---|---|
| Text.Decimal | pipeline/parser_noreuse.py:122-124 | `str()` of a counter is a non-empty digit string that starts with `0` only for zero |
| Text.ParseDecimalInverts | pipeline/parser_noreuse.py:122-124 | reading the digits of a rendered number gives the number back |
| Text.DecimalInjective | pipeline/parser_noreuse.py:122-124 | distinct counters render to distinct strings |
| Text.Join | pipeline/parser_noreuse.py:136-137 | `",".join` of no items is empty, of one item is that item, and never shorter than its first item |
| Text.BelowIrreflexive | pipeline/auto-argo-generator/base_generator.py:12 | Python's string `<`, used by `sorted()`, is irreflexive |
| Text.BelowAsymmetric | pipeline/auto-argo-generator/base_generator.py:12 | Python's string `<` is asymmetric |
| Text.BelowTransitive | pipeline/auto-argo-generator/base_generator.py:12 | Python's string `<` is transitive |
| Text.BelowTotal | pipeline/auto-argo-generator/base_generator.py:12 | any two different strings are ordered one way or the other |
| Text.DashDigitsSplit | pipeline/auto-argo-generator/no_reuse_generator.py:22 | `s + "-" + digits` splits back uniquely when the suffix has only digits |
| Text.DashDecimalInjective | pipeline/auto-argo-generator/no_reuse_generator.py:22 | `f"{stage}-{n}"` determines both the stage and the number |
| Config.StagesDict | pipeline/parser_noreuse.py:13 | the `{s["name"]: s}` lookup finds a definition exactly when the name is declared, and it is the LAST definition of that name |
| Config.AllDeclaredSplit | pipeline/parser_noreuse.py:54 | every lookup in a concatenated flow succeeds exactly when it succeeds in both parts |
| OrderedMap.Put | pipeline/auto-argo-generator/no_reuse_generator.py:26 | assigning a present key replaces its value in place; a new key goes last; keys stay distinct |
| OrderedMap.Dedup | pipeline/auto-argo-generator/no_reuse_generator.py:18-33 | the first appearance of each name, in order: distinct, no longer than the input, nothing new |
| OrderedMap.DedupMembers | pipeline/auto-argo-generator/no_reuse_generator.py:18-33 | deduplication keeps exactly the names of the input |
| OrderedMap.DedupCovers | pipeline/auto-argo-generator/no_reuse_generator.py:18-33 | every input position's name survives deduplication |
| OrderedMap.DedupSnoc | pipeline/auto-argo-generator/no_reuse_generator.py:26 | appending a name already seen changes nothing; a new one goes last |
| OrderedMap.DedupSnocBoth | pipeline/auto-argo-generator/reuse_generator.py:42-44 | lists with the same first-appearance order keep it after the same name is appended to both |
| Fold.FlattenAppend | pipeline/auto-argo-generator/no_reuse_generator.py:18-33 | flattening distributes over concatenation |
| Fold.FlattenMember | pipeline/auto-argo-generator/no_reuse_generator.py:18-33 | every entry of every block appears in the flattened list |
| Fold.RunCons | pipeline/auto-argo-generator/reuse_generator.py:19-28 | a loop whose first step succeeds yields that step's output before the rest of the loop's outputs |
| Fold.RunShape | pipeline/auto-argo-generator/no_reuse_generator.py:18-33 | a loop that completes yields one output per item |
| Fold.RunSuccess | pipeline/auto-argo-generator/no_reuse_generator.py:6-10 | a loop whose every step succeeds from its expected state yields the expected outputs and final state |
| Fold.RunCollects | pipeline/auto-argo-generator/no_reuse_generator.py:6-10 | the loop's outputs are read off item by item |
| Fold.RunStops | pipeline/auto-argo-generator/no_reuse_generator.py:6-10 | the first failing step's error is the loop's error |
| Fold.FirstRejected | pipeline/parser_noreuse.py:45-158 | the first item a test rejects, or the length when none is rejected |
| Fold.RunFailure | pipeline/parser_noreuse.py:45-158 | when every step fails exactly on rejected items, the loop fails exactly when some item is rejected, with the first one's error |
| Fold.RunAlong | pipeline/parser_noreuse.py:45-158 | a loop whose state follows a fixed transition yields each step's output from the state reached so far |
| Fold.RunAlongStops | pipeline/parser_noreuse.py:45-158 | the same loop stops at the first failing step with its error |
| Fold.RunThreaded | pipeline/auto-argo-generator/no_reuse_generator.py:18-33 | a loop whose items are all accepted completes, each output from the state reached so far |
| Fold.RunAppend | pipeline/parser_noreuse.py:45-158 | looping over a concatenation loops over both parts in turn |
| Fold.UsesAppend | pipeline/auto-argo-generator/no_reuse_generator.py:18-33 | the items of a concatenated flow are the items of both parts |
| Fold.BlocksRun | pipeline/auto-argo-generator/no_reuse_generator.py:18-33 | a flow whose blocks all read runs like one loop over all their items, one output list per block |
| Fold.BlocksShape | pipeline/auto-argo-generator/no_reuse_generator.py:18-33 | a completed flow yields one entry per block, each with one output per item |
| Fold.BlocksUnreadable | pipeline/auto-argo-generator/no_reuse_generator.py:18-33 | a flow reaching an unreadable block fails with that block's error |
| Fold.BlocksFirstError | pipeline/auto-argo-generator/no_reuse_generator.py:18-33 | a failing item before the first unreadable block decides the flow's error |
| Fold.BlocksOutcome | pipeline/auto-argo-generator/no_reuse_generator.py:18-33 | the flow succeeds exactly when every block reads and every item succeeds; otherwise it fails with the error of whichever comes first in traversal order |
| BaseGenerator.KeyAtMostTransitive | pipeline/auto-argo-generator/base_generator.py:12 | comparing items by key is transitive |
| BaseGenerator.Insert | pipeline/auto-argo-generator/base_generator.py:12 | inserting an item adds exactly that item |
| BaseGenerator.InsertSorted | pipeline/auto-argo-generator/base_generator.py:12 | inserting into a key-sorted list keeps it sorted |
| BaseGenerator.InsertDict | pipeline/auto-argo-generator/base_generator.py:12 | inserting an item with a new key keeps the keys distinct |
| BaseGenerator.SortParams | pipeline/auto-argo-generator/base_generator.py:12 | `sorted(parameters.items())` holds exactly the dict's items |
| BaseGenerator.SortParamsSorted | pipeline/auto-argo-generator/base_generator.py:12 | the result is ordered by key, and keys stay distinct |
| BaseGenerator.SortedDictStrictly | pipeline/auto-argo-generator/base_generator.py:12 | a key-sorted dict is strictly sorted |
| BaseGenerator.EmptyAlike | pipeline/auto-argo-generator/base_generator.py:12 | two lists with the same items are both empty or both not |
| BaseGenerator.HeadsAlike | pipeline/auto-argo-generator/base_generator.py:12 | two strictly sorted lists with the same items start with the same item |
| BaseGenerator.TailsAlike | pipeline/auto-argo-generator/base_generator.py:12 | and their tails then hold the same items |
| BaseGenerator.StrictlySortedUnique | pipeline/auto-argo-generator/base_generator.py:12 | a strictly sorted list is determined by its items |
| BaseGenerator.SortIgnoresOrder | pipeline/auto-argo-generator/base_generator.py:12 | two dicts with the same items sort to the same list, whatever their insertion order |
| BaseGenerator.HashStage | pipeline/auto-argo-generator/base_generator.py:11-13 | the hash is eight hexadecimal digits |
| BaseGenerator.HashIgnoresOrder | pipeline/auto-argo-generator/base_generator.py:11-13 | two parameter dicts with the same items hash alike under any digest |
| BaseGenerator.GetStageParams | pipeline/auto-argo-generator/base_generator.py:15-19 | `ValueError` exactly when no definition has the name; otherwise the keys of the FIRST such definition, or `KeyError` when it has no `parameters` |
| BaseGenerator.GetStageParamsAgrees | pipeline/auto-argo-generator/base_generator.py:15-19 | for a name defined once, first-match lookup and the parsers' last-wins dict find the same definition |
| BaseGenerator.MembersAgree | pipeline/auto-argo-generator/no_reuse_generator.py:18-29 | where a generator reads a block (`"parallel" in block`, else the block itself) it gets the occurrences the parsers get; the blocks it refuses with `KeyError` or `TypeError` are bare strings and mappings with a falsy `parallel`, which the parsers read as one occurrence |
| BaseGenerator.UsesAgree | pipeline/auto-argo-generator/no_reuse_generator.py:18-33 | on a flow whose every block the generators read, generators and parsers see the same occurrences in the same order |
| BaseGenerator.ArgForParts | pipeline/auto-argo-generator/base_generator.py:46-48 | each argument sets the flag named after its parameter and refers back to that same input parameter |
| BaseGenerator.CreateTemplate | pipeline/auto-argo-generator/base_generator.py:35-50 | fails exactly as the parameter lookup fails; otherwise the template is named after the stage, runs `{stage}:latest` with `python app.py`, takes the declared keys as inputs in order, and passes each on as the literal argument `--{key}={inputs.parameters.{key}}`, whose flag and reference read back as the key |
| BaseGenerator.StageNamesPrefix | pipeline/auto-argo-generator/no_reuse_generator.py:26 | one more occurrence adds its stage at the end |
| BaseGenerator.FaithfulNames | pipeline/auto-argo-generator/no_reuse_generator.py:35-38 | in a map of created templates the template names, in order, are the keys |
| BaseGenerator.PutFaithful | pipeline/auto-argo-generator/no_reuse_generator.py:26 | assigning a stage's own template keeps every entry its stage's template |
| BaseGenerator.PutFirstUse | pipeline/auto-argo-generator/no_reuse_generator.py:26 | assigning templates stage by stage keeps one key per stage, in order of first assignment |
| NoReuseParser.OccurrenceNamesDistinct | pipeline/parser_noreuse.py:116-127 | two occurrence numbers of one stage never share a template or display name |
| NoReuseParser.CrossStageNamesCollide | pipeline/parser_noreuse.py:122-127 | the second `a` and the first `a-2` get the same template and display names |
| NoReuseParser.BuildArgs | pipeline/parser_noreuse.py:134-140 | between one and two words per parameter, the first being the first parameter's `--key` flag |
| NoReuseParser.ReadArgsInvertsBuildArgs | pipeline/parser_noreuse.py:134-140 | when no rendered value starts with `--`, reading the argument vector back gives every parameter's key in order, with its value unless the value contains `=` |
| NoReuseParser.TallySnoc | pipeline/parser_noreuse.py:116-119 | one more occurrence increments its stage's counter, starting from 1 |
| NoReuseParser.TallyCounts | pipeline/parser_noreuse.py:116-119 | the counter has exactly the stages seen, each mapped to its number of occurrences |
| NoReuseParser.RankGrows | pipeline/parser_noreuse.py:116-119 | later occurrences of a stage get strictly larger numbers |
| NoReuseParser.RankOneIffFirst | pipeline/parser_noreuse.py:116-127 | an occurrence is numbered 1 exactly when it is the first of its stage |
| NoReuseParser.RunReference | pipeline/parser_noreuse.py:45-158 | when every occurrence compiles, the loop yields the reference calls and templates and ends with the reference counter |
| NoReuseParser.RunRefused | pipeline/parser_noreuse.py:113-150 | the loop succeeds exactly when every occurrence's stage is defined and its last definition has `image` and `data-path`; otherwise it fails at the first occurrence that does not, with `KeyError` on the stage name, else on `image`, else on `data-path` |
| NoReuseParser.CompilePipelineFailure | pipeline/parser_noreuse.py:45-158 | a pipeline fails exactly when some occurrence does not compile, with the first such occurrence's `KeyError` (stage name, `image` or `data-path`) |
| NoReuseParser.CompilePipelineSuccess | pipeline/parser_noreuse.py:21-42 | the document has the fixed namespace, account and volume, the pipeline as entrypoint, and the steps template first, with one entry per block listing that block's calls; one template per occurrence follows |
| NoReuseParser.OccurrenceTemplate | pipeline/parser_noreuse.py:122-158 | occurrence i's template runs `no` + the image of its stage's last definition with `python main.py`, its built args and the stage's data path; its call uses the numbered display and template names |
| NoReuseParser.OccurrenceNumbering | pipeline/parser_noreuse.py:122-127 | an occurrence keeps the bare stage name as its display name exactly when it is the first of its stage |
| NoReuseParser.PerStageNamesDistinct | pipeline/parser_noreuse.py:116-131 | two occurrences of one stage get distinct template and step names |
| NoReuseParser.ReferencesResolve | pipeline/parser_noreuse.py:129-158 | every call of the steps template names a template of the document |
| NoReuseParser.CounterCounts | pipeline/parser_noreuse.py:116-119 | after a pipeline the counter maps each stage to its number of occurrences |
| NoReuseParser.GenerateSpec | pipeline/parser_noreuse.py:10-164 | no `Deployment` raises `KeyError`; otherwise one document per pipeline in order, with the claim name defaulting to `argo-shard-pvc`, exactly when every pipeline compiles; else the first failing pipeline's error and no documents |
| ReuseParser.UniquePathParts | pipeline/parser_reuse.py:10-16 | a path lies under `/mnt/data`, ends in its uid, and is an input path exactly when so requested |
| ReuseParser.UniquePathsDiffer | pipeline/parser_reuse.py:10-16 | paths drawn with different uids differ |
| ReuseParser.CallTemplateNameInverts | pipeline/parser_reuse.py:115-125 | `call-{tag}-service` gives its tag back, so two names agree exactly when their tags do |
| ReuseParser.FormFields | pipeline/parser_reuse.py:148-151 | two words per parameter |
| ReuseParser.FormFieldsAt | pipeline/parser_reuse.py:148-151 | parameter i contributes `-F` and `key=value`, in insertion order |
| ReuseParser.CurlCommand | pipeline/parser_reuse.py:139-151 | eight fixed words, then two per parameter |
| ReuseParser.CurlCommandLayout | pipeline/parser_reuse.py:139-151 | the command posts to the URL, then gives the input and output directories (both readable back from it), then the parameters |
| ReuseParser.RunReference | pipeline/parser_reuse.py:52-168 | over defined stages, the loop yields the reference calls and templates, drawing two uuids per occurrence |
| ReuseParser.RunUndefined | pipeline/parser_reuse.py:128 | the loop succeeds exactly when every stage is defined, and otherwise fails on the first undefined one |
| ReuseParser.CompilePipelineFailure | pipeline/parser_reuse.py:128 | a pipeline fails exactly when some occurrence names an undefined stage, with the first such stage |
| ReuseParser.CompilePipelineSuccess | pipeline/parser_reuse.py:30-50 | the document has the configured namespace, the account and volume, the pipeline as entrypoint, and the steps template first; one template per occurrence follows; two uuids are drawn per occurrence |
| ReuseParser.CompilePipelineDraws | pipeline/parser_reuse.py:136-137 | a pipeline of defined stages draws exactly two uuids per occurrence |
| ReuseParser.OccurrenceTemplate | pipeline/parser_reuse.py:112-168 | occurrence i's template is named from its label, runs the curl image with the volume at `/mnt/data`, posts to the stage's service on its port (default 5000) with its own input and output paths and parameters; its call uses the label |
| ReuseParser.OccurrenceDirs | pipeline/parser_reuse.py:136-145 | occurrence i posts the input and output paths drawn for it |
| ReuseParser.TemplateNamesRepeat | pipeline/parser_reuse.py:115-125 | two occurrences get the same template name exactly when they have the same label, so templates are not deduplicated |
| ReuseParser.ReferencesResolve | pipeline/parser_reuse.py:131-168 | every call of the steps template names a template of the document |
| ReuseParser.DrawsGrow | pipeline/parser_reuse.py:26 | each pipeline draws its uuids after all earlier pipelines' |
| ReuseParser.PipelineStepFacts | pipeline/parser_reuse.py:26-172 | a pipeline of defined stages compiles from any draw count and advances it; any other pipeline fails with its own error |
| ReuseParser.RunPipelines | pipeline/parser_reuse.py:26-172 | the batch succeeds exactly when every pipeline compiles, each from the draws left by the earlier ones; otherwise it fails with the first failing pipeline's error |
| ReuseParser.GenerateSpec | pipeline/parser_reuse.py:19-174 | no `Deployment` or no namespace raises `KeyError`; otherwise one document per pipeline in order exactly when every stage is defined, else the first undefined stage's error |
| ReuseParser.RunWorkflows | pipeline/parser_reuse.py:19-174 | a successful batch has a namespace, only defined stages, and document i is pipeline i compiled from its own draws |
| ReuseParser.DrawsDisjoint | pipeline/parser_reuse.py:136-137 | different occurrences across the batch use different draws, and no input draw is an output draw |
| ReuseParser.CompiledDirsDistinct | pipeline/parser_reuse.py:136-145 | with a non-repeating uuid source no input directory is an output directory, and different occurrences have different directories |
| ReuseParser.DataDirsDistinct | pipeline/parser_reuse.py:19-174 | across every document of a batch, different occurrences never share an input or output directory, and no input directory is an output directory |
| NoReuseGenerator.OccurrenceFacts | pipeline/auto-argo-generator/no_reuse_generator.py:21-33 | an occurrence with parameters and a stage declared with parameters yields its step and assigns its template; any other fails with its own error, whatever the templates so far |
| NoReuseGenerator.TemplatesStep | pipeline/auto-argo-generator/no_reuse_generator.py:26 | one more compiling occurrence keeps one faithful template per stage name, in order of first use |
| NoReuseGenerator.TemplatesAfter | pipeline/auto-argo-generator/no_reuse_generator.py:18-33 | after compiling occurrences the templates are one faithful template per stage name, in order of first use |
| NoReuseGenerator.RunOccurrences | pipeline/auto-argo-generator/no_reuse_generator.py:18-33 | the occurrences compile exactly when each has parameters and a stage declared with parameters, and then yield their own steps and one template per stage in order of first use; otherwise the first failing occurrence's error |
| NoReuseGenerator.GenerateOneFailure | pipeline/auto-argo-generator/no_reuse_generator.py:12-40 | a pipeline fails at the first failure in traversal order (an occurrence, else an unreadable block) and succeeds exactly when there is none |
| NoReuseGenerator.ExtendsBase | pipeline/auto-argo-generator/no_reuse_generator.py:13-38 | a generated document is `_base_workflow(name)` with only its templates filled in, `main` first as the entrypoint |
| NoReuseGenerator.GenerateOneSuccess | pipeline/auto-argo-generator/no_reuse_generator.py:12-40 | the document is the base skeleton with `main` first, holding one entry per block and one singleton step list per member in traversal order; then one template per stage name in order of first use, each created for that stage |
| NoReuseGenerator.ReferencesResolve | pipeline/auto-argo-generator/no_reuse_generator.py:12-52 | the entrypoint and every step name a template of the document |
| NoReuseGenerator.TemplateNamesDistinct | pipeline/auto-argo-generator/no_reuse_generator.py:35-38 | template names are distinct exactly when no occurrence is of a stage named `main` |
| NoReuseGenerator.StepNameInjective | pipeline/auto-argo-generator/no_reuse_generator.py:22 | two occurrences share a step name exactly when they share stage and identity |
| NoReuseGenerator.GenerateAllSpec | pipeline/auto-argo-generator/no_reuse_generator.py:6-10 | one document per pipeline in order exactly when every pipeline compiles; otherwise the first failing pipeline's error |
| ReuseGenerator.FirstWith | pipeline/auto-argo-generator/reuse_generator.py:42 | the first occurrence with a given hash: none before it has that hash |
| ReuseGenerator.OpensUnseen | pipeline/auto-argo-generator/reuse_generator.py:42-44 | while `executed` holds the hashes of the occurrences so far, an occurrence brings a new hash exactly when its hash is not a key of `executed` |
| ReuseGenerator.FirstFault | pipeline/auto-argo-generator/reuse_generator.py:37-44 | the first occurrence that raises: every earlier one compiles |
| ReuseGenerator.SeenKeeps | pipeline/auto-argo-generator/reuse_generator.py:42 | an occurrence whose hash was seen leaves both dicts as they were |
| ReuseGenerator.StepSeen | pipeline/auto-argo-generator/reuse_generator.py:42-55 | such an occurrence gets the step name recorded for its hash and changes nothing |
| ReuseGenerator.ExecutedNew | pipeline/auto-argo-generator/reuse_generator.py:43 | recording `{stage}-{hash}` for a new hash keeps `executed` mapping exactly the hashes seen, each to the first occurrence's name |
| ReuseGenerator.TemplatesNew | pipeline/auto-argo-generator/reuse_generator.py:44 | assigning the template of a stage that brings a new hash keeps the templates faithful and in order of first assignment |
| ReuseGenerator.StepNew | pipeline/auto-argo-generator/reuse_generator.py:42-55 | an occurrence bringing a new hash whose stage compiles gets `{stage}-{hash}` and moves both dicts on |
| ReuseGenerator.StepAlong | pipeline/auto-argo-generator/reuse_generator.py:37-55 | every compiling occurrence gets the name of the first occurrence with its hash and keeps the dicts recorded |
| ReuseGenerator.StepFault | pipeline/auto-argo-generator/reuse_generator.py:37-44 | an occurrence at fault raises its fault whatever the dicts |
| ReuseGenerator.StageTemplatesNames | pipeline/auto-argo-generator/reuse_generator.py:30-33 | the stage templates have distinct names; every stage bringing a new hash has one, and no stage that does not occur has one |
| ReuseGenerator.RecordedTemplates | pipeline/auto-argo-generator/reuse_generator.py:30-33 | after the last occurrence, `templates.values()` are faithful and in the order their stages first brought a new hash |
| ReuseGenerator.RunRecorded | pipeline/auto-argo-generator/reuse_generator.py:19-28 | compiling occurrences each yield the step named after the first occurrence with their hash, and the dicts end recorded |
| ReuseGenerator.RunFaults | pipeline/auto-argo-generator/reuse_generator.py:19-28 | the first occurrence at fault ends the loop with its error |
| ReuseGenerator.RunSucceeds | pipeline/auto-argo-generator/reuse_generator.py:15-28 | from empty dicts, occurrences none of which is at fault yield their steps and the stage templates |
| ReuseGenerator.RunMemo | pipeline/auto-argo-generator/reuse_generator.py:15-28 | the loop succeeds exactly when no occurrence is at fault, and then yields the shared-name steps and faithful stage templates in order of first new hash; otherwise the first fault |
| ReuseGenerator.ReuseNameShared | pipeline/auto-argo-generator/reuse_generator.py:42-43 | two occurrences share a step name exactly when they share a hash |
| ReuseGenerator.SameWorkShared | pipeline/auto-argo-generator/reuse_generator.py:38-43 | occurrences of one stage with the same parameter items, in any order, share one step name |
| ReuseGenerator.GenerateOneFailure | pipeline/auto-argo-generator/reuse_generator.py:12-35 | a pipeline fails at the first failure in traversal order (an occurrence at fault, else an unreadable block) and succeeds exactly when there is none |
| ReuseGenerator.ExtendsBase | pipeline/auto-argo-generator/reuse_generator.py:12-35 | a generated document is `_base_workflow(f"{name}-reuse")` with only its templates filled in, `main` first as the entrypoint |
| ReuseGenerator.GenerateOneSuccess | pipeline/auto-argo-generator/reuse_generator.py:12-35 | the document is named `{name}-reuse-`, has `main` first with one entry per block and occurrence i's step named after the first occurrence with its hash; then faithful stage templates in the order their stages first brought a new hash |
| ReuseGenerator.StepResolves | pipeline/auto-argo-generator/reuse_generator.py:44-55 | with no hash shared across stages, every step's template is among the stage templates |
| ReuseGenerator.MainResolves | pipeline/auto-argo-generator/reuse_generator.py:30-33 | with no hash shared across stages, the entrypoint and every step of `main` name a template |
| ReuseGenerator.ReferencesResolve | pipeline/auto-argo-generator/reuse_generator.py:12-55 | the same for the generated document |
| ReuseGenerator.ReopenedStageSeen | pipeline/auto-argo-generator/reuse_generator.py:42 | with no hash shared across stages, an occurrence with an old hash is of a stage seen before |
| ReuseGenerator.OpenedStagesPrefix | pipeline/auto-argo-generator/reuse_generator.py:42-44 | with no hash shared across stages, the stages bringing new hashes first appear in the same order as the stages themselves |
| ReuseGenerator.StagesOpenInOrder | pipeline/auto-argo-generator/reuse_generator.py:42-44 | the same over the whole flow |
| ReuseGenerator.TemplatesPerStage | pipeline/auto-argo-generator/reuse_generator.py:30-33 | with no hash shared across stages, the templates after `main` are one per stage name in order of first use, as without reuse |
| ReuseGenerator.CollisionSteps | pipeline/auto-argo-generator/reuse_generator.py:42-55 | when stages `a` and `b` hash alike, `b` reuses `a`'s step name and no template is created for `b` |
| ReuseGenerator.CollisionRun | pipeline/auto-argo-generator/reuse_generator.py:19-28 | the two-block flow then ends with only `a`'s template |
| ReuseGenerator.CollisionDangles | pipeline/auto-argo-generator/reuse_generator.py:30-33 | the document then calls a template `b` that it lacks |
| ReuseGenerator.GenerateAllSpec | pipeline/auto-argo-generator/reuse_generator.py:6-10 | one document per pipeline in order exactly when every pipeline compiles; otherwise the first failing pipeline's error |

## Left out

- Reading the configuration (`load_config`, `BaseArgoGenerator.__init__`), writing YAML (`save_workflows`, `write_workflows.py`) and the experiment runner (`main.py`) are I/O and are not modelled. The compilers take a parsed `Config`.
- MD5 is not computed. `_hash_stage` takes the digest as a parameter from (stage, sorted items) to 32 hexadecimal digits, and keeps its first eight. So collisions are possible, as they are for the real 8-digit prefix.
- `uuid.uuid4()` is a supply of 8-character uids indexed by draw number; `Fresh` states that it never repeats, which the real source only makes likely.
- `id()` is an `id` token on each occurrence. The model does not tie it to memory addresses.
- Python's `str()` and `repr()` of scalar values are taken as given text (`Scalar`). Their formatting of numbers and booleans is not modelled.
- A missing top-level key (`stages`, `pipelines`, `flow`, `name`, `stage`) or a value of the wrong type other than a bare flow string is outside the model. The datatypes make such configurations unrepresentable. A stage definition without `image` or `data-path` is modelled: the parser without reuse raises on it, and the other compilers never read those keys.
- A flow mapping with a falsy `parallel`, a `stages` list and no `stage` key is not representable (`Block` has no such case). The generators would compile it as a parallel group, since they test `"parallel" in block`, while both parsers would raise `KeyError('stage')`. Likewise a mapping with both `stage` and `stages`, or with a truthy `parallel` and no `stages`, is left out.
- Pipeline isolation: the code has no `try`, so the first exception ends the whole batch and every document is lost. The model follows the code (`GenerateSpec`, `GenerateAllSpec`), not the stated goal that one failing pipeline should not affect the others.
- Template-name uniqueness: it is not guaranteed. The reuse parser repeats template names for repeated labels (`ReuseParser.TemplateNamesRepeat`). The parser without reuse can collide across stages (`NoReuseParser.CrossStageNamesCollide`). The generators clash with a stage named `main` (`NoReuseGenerator.TemplateNamesDistinct`). These are stated as properties of the code, not fixed.
- ReuseGenerator.ReferencesResolve: proved only when no two stages share a hash (`NoCrossStageCollision`). `CollisionDangles` shows that otherwise a step can call a template the document lacks.
- ReuseGenerator.TemplatesPerStage: proved only when no two stages share a hash, for the same reason. Without that assumption, `StageTemplates` describes the templates by the stages that brought a new hash.
- The generators use the first definition of a stage (`_get_stage_params`), while the parsers' dict comprehension keeps the last. Both are modelled as written, and `GetStageParamsAgrees` relates them for names defined once.
- In the generators the entrypoint is `main`, and the skeleton has no namespace, service account or volume, as `_base_workflow` writes them.

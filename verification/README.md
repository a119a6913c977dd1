# A verified model of the ForMontee task manager

ForMontee reads tasks from a configuration, keeps them in a rescheduling priority queue,
runs periodic control loops over a shared database and publishes that database through
shared memory; three Python tools build it. This project models the parts with state,
protocols and arithmetic, and proves what they do on all inputs, over all runs and under
all interleavings. `dafny verify dfyconfig.toml` checks everything.

| file | models |
|---|---|
| Uint32.dfy, NameOrder.dfy | the number type of the configuration; the order of map names |
| PriorityQueueElement.dfy | one queued element: occurrence count, time grid, cyclic drifting values |
| RescheduleRuns.dfy | runs of the rescheduling queue, and the drain |
| PriorityQ.dfy | the binary heap over shared elements whose keys change |
| InteractiveTask.dfy | read, process and write of a task |
| SetUp.dfy | the set-up from the configuration, and what each entry fires |
| Interleaving.dfy | the three tasks side by side |
| EveryRun.dfy | one engine under every interleaving of the tasks |
| Program.dfy | the tasks as objects; each call is a step of Interleaving |
| Tuning.dfy | the tuning of one engine, with bend and rotate |
| Workflow.dfy | loading the configuration; which net function an engine gets |
| Database.dfy | the component database, its copies and its shared-memory mirror |
| Publishing.dfy | several writers of the database and its mirror at once |
| ThreadsafeQueue.dfy | the blocking queue: FIFO and wakeups |
| WinSplit.dfy | splitting Windows command lines |
| IwyuExecute.dfy | the bounded parallel job loop |
| SubpathOf.dfy | the path prefix test |
| TidyPool.dfy | the clang-tidy worker pool |

Objects that the C++ code updates in place are classes (`Element`, `PQueue`, `AutoTuner`,
`DB`, `SharedMemory`, `Workflow`, `InteractiveTask`, `Queue`, `Program`); their methods are proved
against functions on values, and the theorems are about those functions. Threads are step
systems. The main results:

* A drain with a standing clock is a merge of arithmetic progressions
  (`DrainIsSortedMerge`), does not depend on ties (`DrainIsConfluent`), and can end exactly
  when no due endless element stands still (`DrainCanEnd`, `DrainEnds`, `DrainSpins`); the
  heap, whose keys change, does such drains (`PQueue.TryPop`, `Drain`).
* Over any run each element fires on its grid, with its own values, as often as it should
  (`Trajectory`, `FiringConservation`, `NoDriftNeverEarly`, `ValueClosedForm`).
* From the file to the firings: every entry that gives a task has one element, which fires
  as the entry asks over any run of the queue (`Configured`, `ConfiguredFirings`), and so
  over any interleaving of the tasks (`EveryRunFires`, `StartAndRead`).
* An element leaves the queue less than a millisecond after it may (`OnTime`), so a drain
  fires exactly what has passed (`ConfiguredDrain`).
* Splitting a command line undoes printing it, however its arguments are pieced together
  from bare and quoted texts and escaped quotes (`SplitJoin`, `QuotedRoundTrip`).
* The parallel job loop gives the sequential result (`ParallelRefinesSequential`), and what
  one round prints and starts is known exactly (`RoundIs`).
* Whole control cycles keep every engine in its band (`CyclesKeepBand`), tuning sweeps the
  band for ever from exactly the states that are not stuck (`SweepsForEver`,
  `SweepsIfFree`), and key sets survive every interleaving (`KeySetsAreKept`). The objects
  of the program take only steps of that system (`Program.Read`, `Program.Process`,
  `Program.Write`).
* No push and no wakeup is lost (`RunMoves`, `EveryRunIsSafe`), the worker pool finishes
  exactly when it can and reports every failure (`CanFinish`, `WhenJoined`), and what one write stores in the mirror reads back as the database exactly
  when no published name has a NUL (`MirrorAgrees`).

Where the code does not do what one expects, the exact condition is proved:

* `times: 0` is marked as infinite but fires once (`ConfiguredFirings`).
* A delta keeps its value as an int exactly below 2^31 ms; the period is zero or negative
  exactly when the low 32 bits of the delta are 0 or at least 2^31 (`ToInt32`). Of a
  configured element, whose delta has 32 bits, that means a delta of 0 or of 2^31 ms and
  more: once due, it fires all its occurrences in one drain (`StandingElementBurns`,
  `ConfiguredDrain`). An endless element would keep the drain from ending (`DrainCanEnd`).
* A clock before its epoch can make an element fire early (`NeverEarly`).
* Overlapping cycles lose updates. Around one tuning cycle, an engine without a net function
  stays in the band exactly when it was not turned down above 1 or up at or below 0.01, and
  one that swept the band goes on doing so exactly when the cycle did not turn it
  (`LostUpdate`; around any number of cycles `LostUpdates`, `LostFor`). One lost turn
  therefore ends the sweep at either end (`OneOverlapEndsTheSweep`), and repeated ones take
  the value above and below every bound (`OverlapsEscape`).
* A rotation at or below 0.1 makes the value 1, the top of the band, and ends the sweep
  without any overlap (`RotationSticks`, `OneRotationEndsTheSweep`).
* A main write lands unless a tuning cycle is between its read and its write, which then
  overwrites it. Under every interleaving of the tasks' steps the last main write that lands
  decides whether an engine sweeps (`LandingDecides`). The band holds under every
  interleaving exactly for the engines with a net function (`BandExactlyWithNetFunction`);
  a bent engine always sweeps (`BentAlwaysSweeps`), a rotated one exactly unless the last
  write that landed was a rotation of a value at or below 0.1 (`EveryRunSweeps`). A rotation
  that does not land says nothing either way (`RotationsNotLanded`).
* The mirror can be stale when writes overlap: a task that copied the components before
  another's write may publish its copy last. It is current exactly when every component
  holds what the last publisher found in it (`MirrorIsCurrent`, `LateCopyIsStale`), and when
  all are done if the last to copy was the last to publish (`LastCopyLastPublish`).
* Motor sets accumulate over the configuration, so a task also targets the motors of the
  entries above it, and an engine is bent if an entry from its first one on gives a bend,
  whatever its own entry asks for
  (`TaskTargets`, `RotateOnlyIfNoBendFollows`, `ConfiguredEngineFourIsBent`).
* Assignment of databases merges (`AssignmentCopies`).
* Reading the mirror under another name detaches it from later writes
  (`DB.WriteAfterForeignRead`).
* A last argument of backslashes only, and empty quoted arguments, are dropped (`SplitJoin`).
* The job loop cannot end with fewer than one job (`NoJobsNeverOver`), nor the worker pool
  with a negative number of workers (`CanFinish`).

## Model

| member | source | states |
|---|---|---|
| PriorityQueueElements.ToInt32 | app/utils/PriorityQueueElement.h:58-59 | the cast of the unsigned 64-bit delta to int keeps the value modulo 2^32 and lies in the int range; it is the delta itself exactly below 2^31, and zero or negative exactly when the low 32 bits are 0 or at least 2^31 |
| PriorityQueueElements.TruncateToMillis | app/utils/PriorityQ.h:88-89 | the clock cast is a whole number of milliseconds within one of the reading, towards zero |
| PriorityQueueElements.OnTime | app/utils/PriorityQ.h:88-91 | an element may leave the queue exactly when a whole millisecond after its due time has come (before the epoch, or is the next to come); after the epoch it is never held back for a millisecond |
| PriorityQueueElements.NeverEarly | app/utils/PriorityQ.h:88-91 | a due time is safe from early pops at every clock reading exactly when it is not before the epoch or is a whole millisecond; no reading after the epoch is early |
| PriorityQueueElements.OnTheGrid | app/utils/PriorityQueueElement.h:63-73 | after k firings a queued element is due exactly k periods later, has k fewer firings left, and is kept by the next pop exactly when it has another one |
| PriorityQueueElements.NthValues | app/utils/PriorityQueueElement.h:75-93 | after k calls each value has moved by k times its delta and the index is k steps on, modulo the number of values |
| PriorityQueueElements.ValueClosedForm | app/utils/PriorityQueueElement.h:75-93 | the j-th get_value of a new element returns initial[(j-1) mod n] + j*delta[(j-1) mod n], the delta of the call itself included |
| PriorityQueueElements.Element.constructor | app/utils/PriorityQueueElement.h:48-60 | a new element starts at index 0 and is due one period after the clock reading |
| PriorityQueueElements.Element.GetRescheduledItemIfAny | app/utils/PriorityQueueElement.h:63-73 | the element comes back exactly when it is endless or has more than one occurrence; all its fields afterwards |
| PriorityQueueElements.Element.GetValue | app/utils/PriorityQueueElement.h:75-93 | the loop adds every delta once; the value is the one at the old index after that; count and key stay |
| RescheduleRuns.StandingElementBurns | app/utils/PriorityQueueElement.h:65-71 | a due finite element whose period is zero or negative fires all it has left in one drain and is gone |
| RescheduleRuns.Trajectory | app/utils/PriorityQ.h:91-103 | over any run with any clock the i-th firing of an element is due at next + i*period with the value of its place; it stays queued while firings are left and is gone after the last |
| RescheduleRuns.StaysAway | app/utils/PriorityQ.h:96-101 | an object that is not queued neither fires nor comes back unless it is pushed |
| RescheduleRuns.FiringConservation | app/utils/PriorityQueueElement.h:65-72 | firings so far plus firings left equal max(1, occurrences); an endless element is never lost |
| RescheduleRuns.SizeConservation | app/utils/PriorityQ.h:91-110 | the queue size is the initial size plus pushes minus retired elements |
| RescheduleRuns.NoDriftNeverEarly | app/utils/PriorityQueueElement.h:56-70 | the k-th firing is due k periods after construction, however late the pops, and happens after that moment |
| RescheduleRuns.DuesNeverGoBack | app/utils/PriorityQ.h:88-104 | without pushes the due times of a run are nondecreasing for any clock readings, if no element that is put back has a negative period |
| RescheduleRuns.CountIsOnTime | app/InteractiveTask.h:86-104 | for every element a drain can be done with, the closed form of the number of firings counts exactly the firings left whose due times have passed, the first one included |
| RescheduleRuns.DrainIsSortedMerge | app/InteractiveTask.h:86-104 | with a standing clock a drain that ends fires of each element exactly its firings left whose due times have passed, with the right times and values, and leaves none that has passed; the due order is nondecreasing exactly when no due element that is put back has a negative period |
| RescheduleRuns.NothingPassed | app/utils/PriorityQ.h:88-105 | try_pop can return nothing exactly when no due time in the queue has passed, and after the epoch none is then a millisecond old |
| RescheduleRuns.DrainLeavesNothing | app/InteractiveTask.h:86-104 | a drain with any clock readings leaves nothing that has passed at its last reading |
| RescheduleRuns.DrainIsConfluent | app/InteractiveTask.h:86-104 | the queue after a drain and every element's firings do not depend on how ties are broken |
| RescheduleRuns.FireUsesWork | app/InteractiveTask.h:87-92 | each firing lowers the work left, whatever the clock reads if no element is endless |
| RescheduleRuns.DrainEnds | app/InteractiveTask.h:87-92 | if no due endless element has a period of zero or less, a drain is no longer than the work of the queue |
| RescheduleRuns.DrainSpins | app/InteractiveTask.h:87-92 | otherwise a drain can have any number of firings |
| RescheduleRuns.DrainCanEnd | app/InteractiveTask.h:87-92 | some drain at a standing clock comes to its end exactly when no due endless element has a period of zero or less |
| PriorityQ.RaisingAKey | app/utils/PriorityQ.h:96-102 | heap order survives every increase of an object's key exactly when every child of a place that holds the object holds it too |
| PriorityQ.TopIsLeast | app/utils/PriorityQueueElement.h:129-138 | under my_compare the top of the heap has the least key |
| PriorityQ.PushHeap | app/utils/PriorityQ.h:107-111 | pushing keeps heap order and adds exactly the element |
| PriorityQ.PopHeap | app/utils/PriorityQ.h:93-94 | popping keeps heap order and takes away exactly the top |
| PriorityQ.PQueue.Push | app/utils/PriorityQ.h:107-111 | heap order stays and exactly one copy is added; the queue gains the element in its present state, and stays free of duplicates exactly when the object was not queued |
| PriorityQ.PQueue.TryPop | app/utils/PriorityQ.h:83-105 | nothing is returned exactly when no due time has passed, after the epoch none by a millisecond; else a least element, advanced, and put back exactly when it has firings left, everything else as it was |
| PriorityQ.PQueue.GetSize | app/utils/PriorityQ.h:113-116 | the size counts every queued object as often as it is queued |
| PriorityQ.TakeValue | app/InteractiveTask.h:93 | a caller's get_value on a shared element changes no key and no other element |
| InteractiveTasks.FireNext | app/InteractiveTask.h:89-93 | try_pop and get_value together are one event of a run |
| InteractiveTasks.Drain | app/InteractiveTask.h:86-104 | the loop ends; what it did is a run that leaves nothing whose time has passed at the last reading, and the motors collected are the targets of what fired |
| InteractiveTasks.StandingClock | app/InteractiveTask.h:86-104 | with a standing clock the loop's run is a drain as DrainIsSortedMerge needs it |
| InteractiveTasks.InteractiveTask.Read | app/InteractiveTask.h:80-107 | drains the inner queue if there is one, then holds exactly the component's values |
| InteractiveTasks.InteractiveTask.Process | app/InteractiveTask.h:109-114 | every value of the snapshot is replaced by its callback's result; it throws exactly when the tuning map misses an engine |
| InteractiveTasks.InteractiveTask.ProcessTuning | app/InteractiveTask.h:109-114 | tuning a snapshot acts on every engine as on that engine alone, in value and direction |
| InteractiveTasks.InteractiveTask.Write | app/InteractiveTask.h:116-120 | the snapshot is merged into the component, its values winning |
| SetUp.TargetsWithin | src/yaml_api/yaml_api.cpp:92-125 | every task targets only motors of the configuration |
| SetUp.TargetsAre | app/TasksFromConfig.cpp:136-140 | the targets of an element are exactly the motors of its task, as ints |
| SetUp.TargetsAscend | app/TasksFromConfig.cpp:136-140 | they come in ascending order of the motor numbers, each once |
| SetUp.QueueTasks | app/TasksFromConfig.cpp:131-153 | the queue holds exactly one element per task, in the order of task names, each with its targets, count, values, deltas, delta and a first due time one period after its own clock reading |
| NameOrder.InOrderIsSorted | app/TasksFromConfig.cpp:131-131 | that order is ascending in the order of std::string, each name once |
| NameOrder.BeforeIs | app/TasksFromConfig.cpp:131-131 | one name is before another exactly if it is a proper prefix or its character is the smaller one where they first differ |
| SetUp.EntryOf | app/TasksFromConfig.cpp:131-153 | every queued element comes from the last entry of its task's key |
| SetUp.ElementFor | app/TasksFromConfig.cpp:131-153 | every entry that gives a task has its element |
| SetUp.ConfiguredFirings | app/TasksFromConfig.cpp:143-152 | over any run with any clock an entry's element fires at most max(1, times) times, exactly that often when it has left the queue; its n-th firing is due n periods after its construction with the n-th value of the entry |
| SetUp.ConfiguredDrain | app/InteractiveTask.h:86-104 | with a standing clock a drain of a configured queue fires of each entry exactly the occurrences whose due times have passed, given that the first has |
| SetUp.ConfiguredQueueDrains | app/TasksFromConfig.cpp:143-152 | a configured queue drains whatever the clock does; its elements can be read exactly when every entry that gives a task has values, and no deltas or at least as many |
| SetUp.TasksFromConfig | app/TasksFromConfig.cpp:122-186 | the configured queue, the directions and the components after set-up; an unknown action throws before the components are written |
| Program.Program.Test | app/utils/PeriodicTask.h:76-76 | the test of the stop flag is a step of the system |
| Program.Program.Read | app/InteractiveTask.h:80-107 | a task's read is a step of the system: for the main task the drain it does, then the snapshot |
| Program.Program.Process | app/InteractiveTask.h:109-114 | a task's process is a step of the system, and throws exactly when that step does |
| Program.Program.Write | app/InteractiveTask.h:116-120 | a task's write is a step of the system |
| Program.Start | app/TasksFromConfig.cpp:122-248 | the set-up of a fresh database gives the state the interleavings start from, with the configured queue; none if an action is unknown |
| Program.StartAndRead | app/TasksFromConfig.cpp:122-234 | from the file through the main task's first drain: it ends whatever the clock does, is a run of the system that leaves nothing whose time has passed at the last reading, and every entry has fired as it asks |
| Interleaving.KeySetsAreKept | app/TasksFromConfig.cpp:176-256 | under every interleaving Engines keeps the keys of get_all_motors and of the direction map, PositionLoop keeps its key, queued targets stay engines, and no step throws |
| Interleaving.CycleUpdates | app/utils/PeriodicTask.h:76-90 | a cycle is possible exactly with a drain its task can do; a whole one updates each engine by its task's function and nothing else, a main cycle around k tuning cycles leaves their direction and what it makes of the value before them |
| Interleaving.CyclesKeepBand | app/TasksFromConfig.cpp:62-85 | any sequence of whole cycles of the three tasks keeps every engine in the band |
| Interleaving.CyclesSweep | app/TasksFromConfig.cpp:176-256 | over any run of whole cycles, and of main cycles around tuning cycles if the engine has a net function, it stays in the band, and sweeps exactly unless its last net function was a rotation at or below 0.1; without one, exactly if it swept before |
| Interleaving.UnrotatedSweeps | app/TasksFromConfig.cpp:62-84 | from the initial state an engine without a net function sweeps after any run of whole cycles |
| EveryRun.LifeOf | app/InteractiveTask.h:105-120 | every run of the system, with any interleaving, is for each engine a sequence of the reads, processes and writes of the two tasks on its one value and direction |
| EveryRun.SeenStep | app/InteractiveTask.h:105-120 | in any order of steps the engine that tuning works on is tuned by a tuning step, replaced by a main write that lands, and left by every other step |
| EveryRun.LandingDecides | app/TasksFromConfig.cpp:37-84 | for every engine and interleaving, after the last main write that lands the engine sweeps exactly if it would from its direction then and the net result of the value the main task had read |
| EveryRun.BandExactlyWithNetFunction | app/TasksFromConfig.cpp:176-256 | the value stays in the band under every interleaving from the initial state exactly for an engine with a net function |
| EveryRun.EveryRunSweeps | app/NetFunctionFactory.h:32-50 | under every interleaving from the initial state an engine with a net function sweeps exactly unless the last main write that landed was a rotation of a value at or below 0.1 |
| EveryRun.BentAlwaysSweeps | app/NetFunctionFactory.h:32-38 | an engine that is bent sweeps at every moment of every interleaving |
| EveryRun.AroundMainTunes | app/InteractiveTask.h:105-120 | a tuning cycle around a whole main cycle does to every engine what the tuning cycle alone would: the net result is lost |
| EveryRun.RotationsNotLanded | app/TasksFromConfig.cpp:213-234 | from the initial state some run ends with a rotation of a value above 0.1 and no rotated engine sweeps, and some with one at or below 0.1 and all sweep, since the rotation did not land |
| Interleaving.CyclesUpdate | app/InteractiveTask.h:105-120 | any run of whole cycles and of main cycles around tuning cycles does to every engine what the tuning functions say of its updates |
| Interleaving.AnyUpdates | app/utils/PeriodicTask.h:76-90 | every list of whole tuning cycles and main cycles around any number of them is a run, whatever the clock shows at the reads |
| Interleaving.OneOverlapEndsTheSweep | app/TasksFromConfig.cpp:197-234 | from the initial state some tuning cycles and one overlap leave every engine without a net function at or above 0.99 after any number of further cycles, and some at or below 0.01 |
| Interleaving.OneRotationEndsTheSweep | app/NetFunctionFactory.h:44-50 | from the initial state, and whatever the clock does, some whole cycles without overlap leave every rotated engine at or above 0.99 after any number of further tuning cycles |
| Interleaving.OverlapsEscape | app/TasksFromConfig.cpp:197-234 | from the initial state, and whatever the clock does, overlapping cycles take every engine without a net function above any bound, and below its negative |
| Interleaving.DrainsAreOneRun | app/InteractiveTask.h:86-104 | under every interleaving the drains of the main task, one after the other, are one run of the queue and leave the queue it has |
| Interleaving.EveryRunFires | app/TasksFromConfig.cpp:131-234 | over any interleaving from the initial state every entry that gives a task fires as it asks, in full exactly when its element is gone |
| Interleaving.StopsSoon | app/utils/PeriodicTask.h:76-97 | after the stop flag each task finishes at most its current cycle: twelve steps in all |
| Interleaving.LoopHolds | app/TasksFromConfig.cpp:87-110 | under every interleaving no noise is lost: PositionLoop holds 1 plus the noise of every process so far, but for one not yet written |
| Tuning.BandIsKept | app/TasksFromConfig.cpp:70-84 | whole tunings, bends and rotations, and bends and rotations around any tuning cycles, keep 0.0099 < v <= 1.01, above 0.01 going up and at most 1 going down |
| Tuning.NarrowBandIsKept | app/NetFunctionFactory.h:32-38 | without a rotation among them the value stays below 0.9999, below 0.99 going down |
| Tuning.TurnsInTime | app/TasksFromConfig.cpp:70-84 | from every state that is not stuck tuning reaches its end of the band and turns within 463 cycles going up, 460 going down |
| Tuning.SweepsForEver | app/TasksFromConfig.cpp:70-84 | from every such state, at any time, both ends of the band are reached within 923 more cycles |
| Tuning.SweepsIfFree | app/TasksFromConfig.cpp:70-84 | tuning keeps coming to both ends of the band exactly from 0.01 < v < 1 going up and 0 < v < 0.99 going down |
| Tuning.FirstClimb | app/TasksFromConfig.cpp:70-84 | from the initial state tuning multiplies 0.5 by 1.01 for 69 cycles, to the first value at or above 0.99; the next cycle takes off a hundredth and turns, and the one after multiplies by 0.99 |
| Tuning.BendOrbit | app/NetFunctionFactory.h:32-38 | repeated bends take any positive value up by 1.05 each as long as it is below 0.9; the first that finds it at or above 0.9 halves it |
| Tuning.BendsFromHalf | app/NetFunctionFactory.h:32-38 | from the initial 0.5 that is the fourteenth bend |
| Tuning.RotationReadsValue | app/NetFunctionFactory.h:44-50 | rotations of two values above 0.1 agree for every sine only if the values do; every other value becomes 1 |
| Tuning.UpdateSweeps | app/NetFunctionFactory.h:32-50 | an engine of the band stays in it; after a bend it sweeps, after a rotation exactly if its value was above 0.1, around any number of tuning cycles or none; after a tuning cycle exactly if it swept before |
| Tuning.UpdatesSweep | app/TasksFromConfig.cpp:37-84 | after any updates that do not write back an old value as it is, an engine of the band sweeps exactly unless the last net function was a rotation at or below 0.1; without one, exactly if it swept at the start |
| Tuning.RotationSticks | app/NetFunctionFactory.h:44-50 | a whole rotation at the bottom of the sweep leaves the value at or above 0.99 for ever |
| Tuning.StuckForEver | app/TasksFromConfig.cpp:76-83 | from every other state tuning alternates between two states for ever, both at or below 0.01 or both at or above 0.99 |
| Tuning.LostUpdate | app/TasksFromConfig.cpp:70-84 | after overwriting the value by the one before a cycle an engine of the band is in it exactly if v <= 1 going up, v > 0.01 going down; one that swept still sweeps exactly if the cycle did not turn it; every other case exactly |
| Tuning.LostUpdates | app/InteractiveTask.h:105-120 | the same for the value from before any number of cycles: what counts is whether these turned the engine an odd number of times |
| Tuning.LostFor | app/TasksFromConfig.cpp:70-84 | for an engine read at an end of the band the sweep is lost around any number of cycles from 1 to n + 1, and not around n + 2, where n is 390 to 462 |
| Tuning.RoundsDrift | app/TasksFromConfig.cpp:76-83 | at an end of the band each overlap with the cycle after it moves the value another hundredth outwards |
| Tuning.AutoTuner.Execute | app/TasksFromConfig.cpp:62-85 | throws exactly for a missing engine and then changes nothing; else value and direction are tuned, other directions stay |
| Workflows.Workflow.LoadWork | src/yaml_api/yaml_api.cpp:78-131 | the fields after loading any entries from any earlier state |
| Workflows.Workflow.ConstructNetAction | src/yaml_api/yaml_api.cpp:49-62 | a net action gets all net motors so far and does not replace an earlier one of its key |
| Workflows.SetsOfLoaded | src/yaml_api/yaml_api.h:120-131 | a motor is known exactly when an entry of that kind names it |
| Workflows.ContainsIs | src/yaml_api/yaml_api.cpp:85-85 | a key contains the word exactly if it is the word with anything before and after it |
| Workflows.TaskTargets | src/yaml_api/yaml_api.cpp:92-125 | the targets of a task are the motors of every function entry up to the last with its key |
| Workflows.ActionMotors | src/yaml_api/yaml_api.cpp:53-61 | the motors of a net action are those of every net action up to the first with its key |
| Workflows.WireActions | app/TasksFromConfig.cpp:155-174 | fails exactly when an action is unknown; otherwise each function has the motors of the actions that name it |
| Workflows.UnknownIs | app/TasksFromConfig.cpp:155-174 | of the file: it fails exactly when the first net action of some key asks for something other than bend, dashboard and rotate |
| Workflows.ExecuteNetFunction | app/TasksFromConfig.cpp:27-59 | the first function in name order that has the engine decides; the dashboard changes nothing |
| Workflows.FunctionMotors | app/TasksFromConfig.cpp:166-174 | a function acts on a motor exactly when a net action at or above an entry that gives the function an action names the motor |
| Workflows.RotateOnlyIfNoBendFollows | app/TasksFromConfig.cpp:37-57 | an engine is bent exactly if an entry from the first one that names it on gives a bend, else rotated if one gives a rotation, else left alone |
| Workflows.ConfiguredEngineFourIsBent | configured/tasks.yaml:14-26 | with the shipped configuration engine 4, configured to rotate, is bent |
| Workflows.ConfiguredTargets | configured/tasks.yaml:1-12 | with the shipped configuration the second function, configured for engine 3, also targets engines 1 and 2 |
| Database.HoldsLastWrites | app/utils/DB.h:74-83 | after any writes a component holds for a key the value of the last write that gave one, and nothing else |
| Database.MirrorAgrees | app/utils/SharedMemoryWrapper.cpp:68-84 | what update stores reads back whole, and as the published view exactly when no published name has a NUL |
| Database.MirrorIsUnique | app/utils/SharedMemoryWrapper.cpp:68-84 | there is one mirror of a table |
| Database.PlainNamesAreMirrored | app/utils/SharedMemoryWrapper.cpp:81-83 | a component whose name has no NUL keeps its own values in the mirror, whatever names with a NUL there are |
| Database.MirrorHoldsLastWrites | app/utils/DB.cpp:27-54 | without NULs a reader of the mirror sees for every component and key the value of the last write that gave one, and nothing else |
| Database.CStr | app/utils/SharedMemoryWrapper.cpp:81-82 | a name is cut at its first NUL, and kept whole exactly when it has none |
| Database.AssignmentCopies | app/utils/DB.h:33-61 | assignment equals a copy exactly when the target held nothing the source does not hold; the copy constructor always copies |
| Database.SharedMemory.Init | app/utils/SharedMemoryWrapper.cpp:40-57 | opens the segment, names the object, and leaves the contents found there |
| Database.SharedMemory.Update | app/utils/SharedMemoryWrapper.cpp:59-87 | the object is cleared and refilled under cut names, each with the values of the first component in name order that is cut to it; every other object stays |
| Database.SharedMemory.Retrieve | app/utils/SharedMemoryWrapper.cpp:89-117 | returns the non-empty components found under the name, and makes that name the target of later updates |
| Database.CopyNonEmpty | app/utils/DB.cpp:27-41 | the nested loops give every component with its values, without the empty ones |
| Database.DB.GetComponentDb | app/utils/DB.h:63-72 | the component's values, none if it is missing |
| Database.DB.SetComponentDb | app/utils/DB.h:74-86 | new values win over old ones, the component exists afterwards, and an active mirror shows the new table, if no other task writes meanwhile |
| Database.DB.GetAllValues | app/utils/DB.cpp:27-41 | the published view of the table |
| Database.DB.UpdateSm | app/utils/DB.cpp:43-47 | the object named in shared memory mirrors the published view |
| Database.DB.InitSm | app/utils/DB.cpp:56-72 | succeeds exactly while no location is set, and with sharing on and a name given the database is then connected to its own location |
| Database.DB.WriteThenRead | app/utils/DB.h:74-86 | while connected, a read of the mirror after any write equals get_all_values exactly when no published name has a NUL |
| Database.DB.WriteAfterForeignRead | app/utils/SharedMemoryWrapper.cpp:90-93 | after a read under another name a write does not reach the mirror, which gives its old content |
| Database.DB.Assign | app/utils/DB.h:33-48 | assignment merges, values already there winning; self-assignment does nothing |
| Database.MergedHolds | app/utils/DB.h:33-48 | after an assignment every component and key has the value of the target if it had one, else that of the source |
| Database.CopyOf | app/utils/DB.h:50-61 | a copy has the table of its source and no mirror |
| Publishing.MirrorShows | app/utils/DB.cpp:27-47 | under every interleaving of writers the mirror shows each component as the last publisher's copy found it |
| Publishing.MirrorIsCurrent | app/utils/DB.h:74-86 | a reader of the mirror sees the database exactly when each component holds what the last publisher's copy found |
| Publishing.UndisturbedIsCurrent | app/utils/DB.cpp:43-47 | it does if no write came after the last publisher began to copy |
| Publishing.LastCopyLastPublish | app/utils/DB.cpp:27-47 | it does, once all writers are done, if the task that began to copy last is the one that published last |
| Publishing.SetInSteps | app/utils/DB.h:74-86 | a call of set_component_db with sharing on ends with the table and mirror of one task's write, copies in name order and publication |
| Publishing.LateCopyIsStale | app/utils/DB.h:74-86 | for any table without NULs: two writers are done, the older copy published last, and the mirror lacks the second write exactly when that changed something |
| ThreadsafeQueue.Queue.Push | app/utils/thread_safe_queue.h:65-71 | appends the value |
| ThreadsafeQueue.Queue.TryPop | app/utils/thread_safe_queue.h:30-38 | takes the front value, or reports an empty queue and leaves it |
| ThreadsafeQueue.Queue.Empty | app/utils/thread_safe_queue.h:59-63 | reports emptiness |
| ThreadsafeQueue.PushesArrive | app/utils/thread_safe_queue.h:65-71 | in every run the record of pushes holds the values of the push events, in order |
| ThreadsafeQueue.StepMoves | app/utils/thread_safe_queue.h:22-71 | a push appends its value and wakes the thread named; a pop of any kind takes the first item for its thread; at an empty queue try_pop does nothing and the others wait |
| ThreadsafeQueue.RunMoves | app/utils/thread_safe_queue.h:22-71 | over any run the values of the push events are the popped ones followed by the queue |
| ThreadsafeQueue.PushStep | app/utils/thread_safe_queue.h:65-71 | the method of the class is that step |
| ThreadsafeQueue.PopStep | app/utils/thread_safe_queue.h:30-38 | the method of the class takes what the step pops |
| ThreadsafeQueue.StepKeeps | app/utils/thread_safe_queue.h:22-71 | every step under the lock keeps the pushed values equal to the popped ones and the queue, and keeps waiters served |
| ThreadsafeQueue.EveryRunIsSafe | app/utils/thread_safe_queue.h:22-71 | in every state of every run the pushed values are the popped ones followed by the queue, and if a thread waits unnotified the notified threads number at least the items |
| ThreadsafeQueue.WaitingIsWorkedFor | app/utils/thread_safe_queue.h:22-28 | a waiting thread beside a queued item means some thread is notified, and the next notified one to run takes the front item |
| ThreadsafeQueue.WokenThreadsSettle | app/utils/thread_safe_queue.h:48-55 | woken threads settle in as many steps as there are, and then no thread waits beside an item |
| WinSplit.WinSplit | tools/iwyu_tool.py:152-198 | the loop computes the split, and no argument it yields is empty |
| WinSplit.Concatenation | tools/iwyu_tool.py:179-187 | after a line that ends outside quotes a blank starts afresh, and yields also the backslashes the end of the line would drop |
| WinSplit.SplitsApart | tools/iwyu_tool.py:179-196 | splitting commutes with concatenation at a blank exactly when the first part does not end in an empty argument with pending backslashes |
| WinSplit.RunQuote | tools/iwyu_tool.py:161-178 | reading a quoted text gives back the text and ends outside quotes |
| WinSplit.SplitJoin | tools/iwyu_tool.py:152-198 | splitting a printed list of arguments, each of adjoining bare and quoted texts and escaped quotes outside quotes, gives their texts, minus empty ones and a last one that is only bare backslashes |
| WinSplit.DefinedString | tools/iwyu_tool.py:170-178 | a string in escaped quotes behind a name, as /DNAME=\"value\", is one argument with its quotes |
| WinSplit.UnclosedQuote | tools/iwyu_tool.py:189-196 | an argument whose closing quote is missing is its text up to the end of the line, unless that is only backslashes |
| WinSplit.QuotedRoundTrip | tools/iwyu_tool.py:152-198 | splitting undoes quoting for a list over any characters exactly when it has no empty argument |
| WinSplit.QuoteFree | tools/iwyu_tool.py:179-196 | a line without quotes gives its maximal runs without blanks, minus a final run of backslashes only |
| IwyuExecute.RoundKeeps | tools/iwyu_tool.py:374-397 | every round keeps each process in one place, starts in order, at most `jobs` pending and the exit code of what is printed, for any polls and loads |
| IwyuExecute.RoundStarts | tools/iwyu_tool.py:385-397 | a round that leaves nothing pending starts a process if one is left, whatever the load |
| IwyuExecute.RoundIs | tools/iwyu_tool.py:374-397 | for any polls, load and jobs a round prints exactly the pending processes that have ended, in pending order, and starts the first n left: the greatest n within jobs and load, or one if the load alone leaves none and nothing runs |
| IwyuExecute.LoadLimit | tools/iwyu_tool.py:383-397 | at the load limit a round starts nothing beside a running process; below it no more than the load leaves room for, and without a limit all there is room for |
| IwyuExecute.ParallelRefinesSequential | tools/iwyu_tool.py:363-401 | after any rounds the invariant holds, and at the end output (up to order) and exit code are those of the sequential branch |
| IwyuExecute.NoJobsNeverOver | tools/iwyu_tool.py:383-397 | with fewer than one job no run gets to the end while processes are left |
| IwyuExecute.Execute | tools/iwyu_tool.py:363-401 | if every process ends at some time, the loop ends with all outputs printed once and the greatest return code, at least 0; in input order for one job |
| IwyuExecute.RunRound | tools/iwyu_tool.py:374-397 | the body of the loop is one round |
| SubpathOf.SubpathIsPrefix | tools/iwyu_tool.py:115-134 | for canonical absolute paths, the root included, the string test holds exactly when the parent's components are a prefix |
| SubpathOf.RStrip | tools/iwyu_tool.py:132 | stripping leaves a prefix that does not end in a separator, and takes off nothing but separators |
| TidyPool.StepKeeps | tools/run-clang-tidy.py:195-217 | every step keeps each file in one place, the counter equal to queued plus held, and the failure list exact |
| TidyPool.HistoryOf | tools/run-clang-tidy.py:195-217 | over any run files are queued and taken in the order given, and the record holds for each exit in order its code and the file its worker took |
| TidyPool.QueueIsBounded | tools/run-clang-tidy.py:343-349 | the queue never holds more files than there are workers |
| TidyPool.WhenJoined | tools/run-clang-tidy.py:355-363 | when join returns each selected file has run exactly once, every exit is on record with its code and file, and the return code is 1 exactly when some process exited with a code other than 0, else 0 |
| TidyPool.NeverStuck | tools/run-clang-tidy.py:343-361 | with a worker some step is possible until join returns, and every run is over after at most four steps per file and one |
| TidyPool.CanFinish | tools/run-clang-tidy.py:334-361 | the pool can come to its end exactly when it has a worker or no file was selected |

## Left out

- PriorityQ.PQueue.TryPop: no object is queued twice, since raising the keys of two copies at once can break the heap that push_heap relies on (RaisingAKey); the program queues each element once.
- InteractiveTasks.Drain: needs a reason to end when an element is endless (positive periods and a bounded clock), since without one the loop may not end (DrainSpins); needs values and enough deltas, since get_value indexes them unchecked.
- InteractiveTasks.FireNext: the same need of values and deltas.
- InteractiveTasks.InteractiveTask.Read: the same needs as Drain, if there is an inner queue.
- PriorityQueueElements.Element.GetValue: needs a value at the index and no fewer deltas than values, since the code reads both unchecked.
- IwyuExecute.Execute: processes are assumed to end, and there is at least one job or nothing to do, since the loop has no end otherwise (NoJobsNeverOver); ParallelRefinesSequential does not assume that processes end.
- Program.Start: the database holds nothing before, as in the program; TasksFromConfig takes any database.
- Program.Program.Read: the same needs as Drain, for the main task; those of a configured queue are met exactly as ConfiguredQueueDrains says.
- Program.StartAndRead: every entry that gives a task can be read.
- Interleaving.OverlapsEscape: how many cycles fit into the five seconds after which the program sets the stop flag is not modelled.
- Interleaving.OneOverlapEndsTheSweep: the same.
- WinSplit.Concatenation: lines that end inside quotes are not concatenated.
- Floating point: floats are reals; rounding and the mixed float and double comparisons are not modelled. The sine is any function with the stated bounds.
- Overflow of 64-bit time points, which takes centuries of nanoseconds, is not modelled.
- Database.DB.SetComponentDb: one task writes at a time; writing, copying and publishing by several tasks are the steps of Publishing. A read or write of one component is one atomic step in both; the code reads for a task without a lock.
- Publishing.MirrorIsCurrent: the components exist before the tasks start, as after the set-up; one that is inserted during a copy is not modelled.
- Interleaving.CyclesUpdate: of the overlapping cycles only main cycles around whole tuning cycles; all others are covered step by step in EveryRun (LifeOf, SeenStep), without a closed form of the value.
- Publishing.SetInSteps: the component exists before, as in Publishing.
- Interleaving.OneRotationEndsTheSweep: the five seconds, as for OverlapsEscape.
- Which heap a push or pop builds among the possible ones: the sifting here is the textbook one.
- The map iteration order of loops whose result does not depend on it.
- The endless loop of a periodic task and its sleeping are steps of Interleaving, not a method; thread start, names and the spinning join are not modelled.
- Shared-memory segments are a map of names to tables: no size limit, no failing open, no other process writing.
- A task without a callback, a reader or a writer: the program sets all three for every task.
- YAML parsing, printing, logging, command-line parsing, the file system and process start.
- The camera and dashboard drawing: the dashboard action does nothing to a value.
- Lower-case path comparison on Windows, the regular-expression filter of file names, include fix-ups and clang-format.
- Workers of the pool that raise an exception.

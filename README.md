# jpa-persistence: admission control, recursive load linking, CDC dispatch, id equality

This project models, in Dafny, the core of the Java library `com.hayden.persistence`.
It covers four parts.

- **Admission control** (`DbPressure`, from `LimitAccessAspect`). A method annotated
  `@LimitAccess` runs under a named `ReentrantSemaphore`.
  - Only a thread's outermost acquire takes a permit. Only the release that brings the
    thread's hold count from 1 to 0 gives the permit back.
  - Semaphores live in a lazily filled registry. A configured name gets its configured
    permits. Any other name gets `maxAccess`.
  - The name `"default"` is resolved through the current data-source key.
  - Pause barriers live in a second registry, keyed by the declared name.
  - `around` picks the phaser, waiter or default handler. Each handler wraps the method in
    try { acquire … proceed } catch (InterruptedException) { interrupt; proceed }
    finally { release }.
- **Recursive post-load linking** (`RecursiveOneToOne` and `RecursiveOneToMany`, from the
  two Hibernate `PostLoadEventListener`s).
  - After an entity loads, the ids of a recursive SQL query are walked.
  - The one-to-one listener walks them in order, joining consecutive entities through
    `child`/`parent`.
  - The one-to-many listener walks them level by level in ascending level order. It appends
    each entity to the previous entity's children list and sets its `parent`.
  - Entities are Dafny objects whose fields the walk assigns in place.
  - The query results are the inputs of `OnPostLoad`.
- **CDC registry and dispatch** (`Cdc`, from `CdcProcessor`).
  - `initialize` builds the multimap from subscription name to subscribers.
  - Every notification calls `onDataChange` on the subscribers registered under its name:
    once per each of the subscriber's own names, with that name as table and operation.
- **Id equality** (`Models`, from `EqualsAndHashCodeId`). For JpaHibernateAuditedIded and JpaInitIded,
  `equalsId` and `hashCodeId` are defined by the entity's Long `uuid`, and both fail on a null id.

Shared pieces:
- `Wrappers` holds Option/Result.
- `Meta` holds the reflection the listeners use: declared fields, annotations and
  `retrieveIdField`.
- `JavaNumbers` holds `Integer.parseInt` and `Long.toString` on decimal text.

Each imperative operation is a method proved against a function on values:
- `Acquire`/`Release` against `AcquireSpec`/`ReleaseSpec`;
- the handlers against `Handle`;
- the registries against `RetrieveSpec`;
- the walks against `Links`, `ChildAfter`/`ChildrenAfter` and `ParentAfter`;
- `Initialize`/`Dispatch` against `RegisterAll`/`DispatchSpec`.

The lemmas beside those functions state what the source promises.

## Model

| member | source | states |
|---|---|---|
| DbPressure.AcquireSpec | src/main/java/com/hayden/persistence/db_pressure/LimitAccessAspect.java:53-60 | acquire succeeds unless the outermost acquire is interrupted; it takes a permit only when the thread's hold count is 0, raises that count by exactly one, and leaves every other thread's count alone |
| DbPressure.ReleaseSpec | src/main/java/com/hayden/persistence/db_pressure/LimitAccessAspect.java:62-74 | release at count 0 changes nothing; at count 1 it drops the thread's entry and returns exactly one permit; above 1 it only decrements; other threads are untouched |
| DbPressure.AcquireThenRelease | src/main/java/com/hayden/persistence/db_pressure/LimitAccessAspect.java:53-74 | a release right after a successful acquire restores the whole semaphore state |
| DbPressure.AcquireN | src/main/java/com/hayden/persistence/db_pressure/LimitAccessAspect.java:53-60 | n nested acquires raise the hold count by n and take at most one permit (only if the count was 0) |
| DbPressure.ReleaseN | src/main/java/com/hayden/persistence/db_pressure/LimitAccessAspect.java:62-74 | n releases lower the hold count by n, never below 0, and return a permit only if the count reaches 0 from above |
| DbPressure.NestedAcquireReleaseRestores | src/main/java/com/hayden/persistence/db_pressure/LimitAccessAspect.java:47-74 | n acquires followed by n releases by one thread restore permits and every hold count |
| DbPressure.ReentrantSemaphore.Acquire | src/main/java/com/hayden/persistence/db_pressure/LimitAccessAspect.java:53-60 | returns false exactly on the interrupted outermost acquire (state unchanged), otherwise moves the state to AcquireSpec |
| DbPressure.ReentrantSemaphore.Release | src/main/java/com/hayden/persistence/db_pressure/LimitAccessAspect.java:62-74 | moves the state to ReleaseSpec |
| DbPressure.InitSpec | src/main/java/com/hayden/persistence/db_pressure/LimitAccessAspect.java:86-91 | after init there is one semaphore per configured name, with its configured permits and no holds |
| DbPressure.RegistryKey | src/main/java/com/hayden/persistence/db_pressure/LimitAccessAspect.java:209-230 | a non-"default" name is its own key; "default" resolves to the trigger's current key, or "default" without a trigger |
| DbPressure.NewPermits | src/main/java/com/hayden/persistence/db_pressure/LimitAccessAspect.java:214-233 | a new semaphore gets the configured permits of a configured non-"default" name, else maxAccess |
| DbPressure.RetrieveSpec | src/main/java/com/hayden/persistence/db_pressure/LimitAccessAspect.java:208-236 | insert-if-absent under the resolved key: an existing entry is returned unchanged, a missing one is added with NewPermits, nothing else changes |
| DbPressure.RetrieveIdempotent | src/main/java/com/hayden/persistence/db_pressure/LimitAccessAspect.java:210-213 | retrieving the same name twice leaves the registry as retrieving it once |
| DbPressure.RetrieveAfterInit | src/main/java/com/hayden/persistence/db_pressure/LimitAccessAspect.java:86-236 | on a fresh registry the resolved semaphore has the configured permits of its key when configured, else maxAccess |
| DbPressure.SelectMode | src/main/java/com/hayden/persistence/db_pressure/LimitAccessAspect.java:111-128 | phaser whenever isPhaser (even with isWaiter), else waiter if isWaiter, else default |
| DbPressure.Capture | src/main/java/com/hayden/persistence/db_pressure/LimitAccessAspect.java:140-146 | the barrier's result is an error exactly when the wrapped method threw |
| DbPressure.RethrowCapture | src/main/java/com/hayden/persistence/db_pressure/LimitAccessAspect.java:140-152 | the phaser rethrows the captured cause and returns the captured value: the outcome passes through the barrier unchanged |
| DbPressure.Handle | src/main/java/com/hayden/persistence/db_pressure/LimitAccessAspect.java:134-201 | interrupted outermost acquire: one unprotected invocation with the interrupt flag set; otherwise the first invocation holds the permit (inside the barrier only for phasers, after the checkpoint only for waiters), and an InterruptedException from it leads to a second invocation still holding the permit |
| DbPressure.HandlersAgreeOnOutcome | src/main/java/com/hayden/persistence/db_pressure/LimitAccessAspect.java:134-201 | the three handlers give the same outcome for the same inputs |
| DbPressure.LimitAccessAspect.Init | src/main/java/com/hayden/persistence/db_pressure/LimitAccessAspect.java:85-94 | the registry holds InitSpec(config) in distinct semaphores and the barrier map is empty |
| DbPressure.LimitAccessAspect.RetrieveSemaphore | src/main/java/com/hayden/persistence/db_pressure/LimitAccessAspect.java:208-236 | returns the entry under the resolved key, creating a fresh one only if absent; the registry's value moves to RetrieveSpec |
| DbPressure.LimitAccessAspect.RetrievePauseBarrier | src/main/java/com/hayden/persistence/db_pressure/LimitAccessAspect.java:241-243 | computeIfAbsent under the declared name: an existing barrier is reused, otherwise one fresh barrier is added, others unchanged |
| DbPressure.LimitAccessAspect.Guarded | src/main/java/com/hayden/persistence/db_pressure/LimitAccessAspect.java:134-201 | the handler skeleton yields Handle's completion and leaves the semaphore exactly as it found it |
| DbPressure.LimitAccessAspect.Handler | src/main/java/com/hayden/persistence/db_pressure/LimitAccessAspect.java:134-201 | a handler yields Handle's completion, and afterwards every semaphore of the registry has its earlier state, only a newly created one being added |
| DbPressure.LimitAccessAspect.HandlePhaser | src/main/java/com/hayden/persistence/db_pressure/LimitAccessAspect.java:134-159 | Handle in phaser mode; registry restored except for a created entry |
| DbPressure.LimitAccessAspect.HandleWaiter | src/main/java/com/hayden/persistence/db_pressure/LimitAccessAspect.java:164-180 | Handle in waiter mode; registry restored except for a created entry |
| DbPressure.LimitAccessAspect.HandleDefault | src/main/java/com/hayden/persistence/db_pressure/LimitAccessAspect.java:189-201 | Handle in default mode; registry restored except for a created entry |
| DbPressure.LimitAccessAspect.Around | src/main/java/com/hayden/persistence/db_pressure/LimitAccessAspect.java:100-129 | a missing annotation throws IllegalArgumentException and changes nothing; otherwise the name's barrier exists afterwards and the handler chosen by SelectMode runs |
| DbPressure.LimitAccessAspect.Dispatch | src/main/java/com/hayden/persistence/db_pressure/LimitAccessAspect.java:114-128 | the if-chain runs the handler SelectMode picks |
| Meta.TryFindIdField | src/main/java/com/hayden/persistence/recursive/one_to_one/RecursiveOneToOneLoadListener.java:105-110 | finds a field with the id annotation exactly when one is declared |
| Meta.RetrieveIdField | src/main/java/com/hayden/persistence/recursive/one_to_one/RecursiveOneToOneLoadListener.java:94-103 | the class's own id field wins; else the direct superclass's; fails exactly when neither declares one |
| RecursiveOneToOne.LookupSpec | src/main/java/com/hayden/persistence/recursive/one_to_one/RecursiveOneToOneLoadListener.java:55-67 | every key maps to a loaded, readable entity whose id is that key; every readable loaded entity has its id as a key; failure exactly when a loaded entity has no id field or a null readable id |
| RecursiveOneToOne.BuildLookup | src/main/java/com/hayden/persistence/recursive/one_to_one/RecursiveOneToOneLoadListener.java:55-67 | the streaming loop builds LookupSpec |
| RecursiveOneToOne.LookupStopsAtError | src/main/java/com/hayden/persistence/recursive/one_to_one/RecursiveOneToOneLoadListener.java:55-67 | the first failing entity decides the result |
| RecursiveOneToOne.Get | src/main/java/com/hayden/persistence/recursive/one_to_one/RecursiveOneToOneLoadListener.java:77 | q.get is null exactly for an id the map lacks |
| RecursiveOneToOne.HeadAt | src/main/java/com/hayden/persistence/recursive/one_to_one/RecursiveOneToOneLoadListener.java:70-85 | the head is the triggering entity, a looked-up entity, or null |
| RecursiveOneToOne.LinksWithin | src/main/java/com/hayden/persistence/recursive/one_to_one/RecursiveOneToOneLoadListener.java:79-84 | every link joins two distinct entities, the head being the triggering or a looked-up entity and the next a looked-up one |
| RecursiveOneToOne.AfterAppend | src/main/java/com/hayden/persistence/recursive/one_to_one/RecursiveOneToOneLoadListener.java:75-86 | links applied in two batches equal the concatenated batch |
| RecursiveOneToOne.AfterUntouched | src/main/java/com/hayden/persistence/recursive/one_to_one/RecursiveOneToOneLoadListener.java:75-86 | an entity no link mentions keeps child and parent |
| RecursiveOneToOne.NeverOwnChildOrParent | src/main/java/com/hayden/persistence/recursive/one_to_one/RecursiveOneToOneLoadListener.java:80 | thanks to the identity guard no entity becomes its own child or parent |
| RecursiveOneToOne.MissBreaksChain | src/main/java/com/hayden/persistence/recursive/one_to_one/RecursiveOneToOneLoadListener.java:85 | a missing id makes no link, sets the head to null, and the next id is linked to nothing |
| RecursiveOneToOne.ChainWhenAllFound | src/main/java/com/hayden/persistence/recursive/one_to_one/RecursiveOneToOneLoadListener.java:75-86 | when every id is found and differs from its head, the i-th link joins the i-th head to the i-th entity |
| RecursiveOneToOne.ChainParents | src/main/java/com/hayden/persistence/recursive/one_to_one/RecursiveOneToOneLoadListener.java:79-85 | along distinct found entities each one's parent ends as the head it was visited with |
| RecursiveOneToOne.ChainChildren | src/main/java/com/hayden/persistence/recursive/one_to_one/RecursiveOneToOneLoadListener.java:79-85 | along distinct found entities each head's child ends as the entity visited after it |
| RecursiveOneToOne.ChainStep | src/main/java/com/hayden/persistence/recursive/one_to_one/RecursiveOneToOneLoadListener.java:79-85 | along distinct found entities the last id links the previous head to its entity |
| RecursiveOneToOne.RootFirstSkipped | src/main/java/com/hayden/persistence/recursive/one_to_one/RecursiveOneToOneLoadListener.java:75-85 | when the first id looks up the triggering entity itself, it makes no link and the walk equals the walk over the remaining ids |
| RecursiveOneToOne.DoSetDeclaredField | src/main/java/com/hayden/persistence/recursive/one_to_one/RecursiveOneToOneLoadListener.java:112-121 | assigns exactly the named field |
| RecursiveOneToOne.Attach | src/main/java/com/hayden/persistence/recursive/one_to_one/RecursiveOneToOneLoadListener.java:76-85 | one loop turn applies StepLink to the touched entities and advances the head to the lookup result |
| RecursiveOneToOne.Advance | src/main/java/com/hayden/persistence/recursive/one_to_one/RecursiveOneToOneLoadListener.java:75-86 | one loop turn extends the applied links by StepLink, relative to the fields before the walk |
| RecursiveOneToOne.Walk | src/main/java/com/hayden/persistence/recursive/one_to_one/RecursiveOneToOneLoadListener.java:75-86 | the while loop applies Links over all ids |
| RecursiveOneToOne.LinkChain | src/main/java/com/hayden/persistence/recursive/one_to_one/RecursiveOneToOneLoadListener.java:70-86 | starting at the triggering entity, every touched entity's child and parent end as Links leaves them |
| RecursiveOneToOne.FieldPlan | src/main/java/com/hayden/persistence/recursive/one_to_one/RecursiveOneToOneLoadListener.java:43-86 | no id field or an unreadable id fails before any query; for non-null query ids, succeeds exactly when the id field exists, the id is readable and LookupSpec succeeds; otherwise the lookup's error is the field's error; on success the links are the walk over the returned ids |
| RecursiveOneToOne.PlanStopsAtError | src/main/java/com/hayden/persistence/recursive/one_to_one/RecursiveOneToOneLoadListener.java:40-91 | a failing field ends the listener |
| RecursiveOneToOne.PlanStep | src/main/java/com/hayden/persistence/recursive/one_to_one/RecursiveOneToOneLoadListener.java:40-41 | only fields annotated OneToOneRecursive contribute links, once each |
| RecursiveOneToOne.HandleField | src/main/java/com/hayden/persistence/recursive/one_to_one/RecursiveOneToOneLoadListener.java:41-90 | one annotated field succeeds exactly when FieldPlan does, and changes fields exactly by its links |
| RecursiveOneToOne.WalkField | src/main/java/com/hayden/persistence/recursive/one_to_one/RecursiveOneToOneLoadListener.java:70-86 | the walk changes the triggering entity and all loaded entities exactly as its links say |
| RecursiveOneToOne.OnPostLoad | src/main/java/com/hayden/persistence/recursive/one_to_one/RecursiveOneToOneLoadListener.java:38-92 | fails exactly when the plan records an error; child and parent of the triggering and every loaded entity end as the planned links leave them |
| JavaNumbers.ParseDecimal | src/main/java/com/hayden/persistence/recursive/one_to_many/RecursiveLoadListener.java:59 | a run of decimal digits parses to its value; the empty string does not parse |
| JavaNumbers.ParseInt | src/main/java/com/hayden/persistence/recursive/one_to_many/RecursiveLoadListener.java:59 | Integer.parseInt accepts exactly the decimal grammar within 32 bits |
| JavaNumbers.Decimal | src/main/java/com/hayden/persistence/recursive/one_to_many/RecursiveLoadListener.java:67 | a non-empty run of digits without a leading zero |
| JavaNumbers.IdString | src/main/java/com/hayden/persistence/recursive/one_to_many/RecursiveLoadListener.java:67 | Long.toString starts with '-' exactly for negative values |
| JavaNumbers.DecimalValue | src/main/java/com/hayden/persistence/recursive/one_to_many/RecursiveLoadListener.java:67 | the digits of Decimal(n) read back as n |
| JavaNumbers.ParseIdString | src/main/java/com/hayden/persistence/recursive/one_to_many/RecursiveLoadListener.java:67 | parsing Long.toString gives the value back |
| JavaNumbers.IdStringInjective | src/main/java/com/hayden/persistence/recursive/one_to_many/RecursiveLoadListener.java:67 | distinct ids give distinct lookup keys |
| JavaNumbers.ParseIntIdString | src/main/java/com/hayden/persistence/recursive/one_to_many/RecursiveLoadListener.java:59 | Integer.parseInt accepts the rendering of a Long exactly when it fits in 32 bits, and then returns the value; a wider id is a NumberFormatException |
| RecursiveOneToMany.AddChild | src/main/java/com/hayden/persistence/recursive/one_to_many/RecursiveLoadListener.java:121-132 | null and an empty bag become a one-element list, a non-empty bag stays a bag, any other modifiable list gains the entity at its end, a non-list value is untouched |
| RecursiveOneToMany.DoSetDeclaredField | src/main/java/com/hayden/persistence/recursive/one_to_many/RecursiveLoadListener.java:117-137 | the children field becomes AddChild of its old value; parent unchanged |
| RecursiveOneToMany.DoSetDeclaredFieldOne | src/main/java/com/hayden/persistence/recursive/one_to_many/RecursiveLoadListener.java:139-148 | the parent field is set; children unchanged |
| RecursiveOneToMany.ParseLevels | src/main/java/com/hayden/persistence/recursive/one_to_many/RecursiveLoadListener.java:59 | succeeds exactly when every level parses, pairing each parsed level with its row id in row order; otherwise NumberFormat |
| RecursiveOneToMany.InsertSpec | src/main/java/com/hayden/persistence/recursive/one_to_many/RecursiveLoadListener.java:59-74 | adding an entry keeps levels ascending and appends the id to its own level only |
| RecursiveOneToMany.GroupByLevelSpec | src/main/java/com/hayden/persistence/recursive/one_to_many/RecursiveLoadListener.java:59-74 | levels come out in ascending numeric order, each holding exactly its rows' ids in row order |
| RecursiveOneToMany.GroupsNonEmpty | src/main/java/com/hayden/persistence/recursive/one_to_many/RecursiveLoadListener.java:59 | every level group holds at least one id |
| RecursiveOneToMany.LookupSpec | src/main/java/com/hayden/persistence/recursive/one_to_many/RecursiveLoadListener.java:61-72 | every key is the Long.toString of a loaded readable entity's id and maps to it; every readable loaded entity is keyed; failure exactly on a missing id field or a null readable id |
| RecursiveOneToMany.BuildLookup | src/main/java/com/hayden/persistence/recursive/one_to_many/RecursiveLoadListener.java:61-72 | the streaming loop builds LookupSpec |
| RecursiveOneToMany.LookupStopsAtError | src/main/java/com/hayden/persistence/recursive/one_to_many/RecursiveLoadListener.java:61-72 | the first failing entity decides the result |
| RecursiveOneToMany.LookupByValue | src/main/java/com/hayden/persistence/recursive/one_to_many/RecursiveLoadListener.java:67-84 | a row id finds an entity only if it is the exact decimal rendering of that entity's id |
| RecursiveOneToMany.Get | src/main/java/com/hayden/persistence/recursive/one_to_many/RecursiveLoadListener.java:84 | q.get is null exactly for a key the map lacks |
| RecursiveOneToMany.HeadAt | src/main/java/com/hayden/persistence/recursive/one_to_many/RecursiveLoadListener.java:76-91 | the head is the triggering entity, a looked-up entity, or null |
| RecursiveOneToMany.LinksWithin | src/main/java/com/hayden/persistence/recursive/one_to_many/RecursiveLoadListener.java:86-89 | every addition joins the triggering or a looked-up entity to a looked-up entity |
| RecursiveOneToMany.ChildrenAppended | src/main/java/com/hayden/persistence/recursive/one_to_many/RecursiveLoadListener.java:117-132 | a list-valued children field ends holding its old items plus every entity added under it, in visit order; a non-list value never changes |
| RecursiveOneToMany.AfterAppend | src/main/java/com/hayden/persistence/recursive/one_to_many/RecursiveLoadListener.java:80-93 | additions applied in two batches equal the concatenated batch |
| RecursiveOneToMany.AfterUntouched | src/main/java/com/hayden/persistence/recursive/one_to_many/RecursiveLoadListener.java:80-93 | an entity no addition mentions keeps children and parent |
| RecursiveOneToMany.RootRowFirstLinksToItself | src/main/java/com/hayden/persistence/recursive/one_to_many/RecursiveLoadListener.java:86-89 | with no self-link guard, a first row finding the triggering entity adds it to its own children and makes it its own parent |
| RecursiveOneToMany.SiblingsChain | src/main/java/com/hayden/persistence/recursive/one_to_many/RecursiveLoadListener.java:83-91 | two consecutive found ids, same level or not, chain: the second is added under the first |
| RecursiveOneToMany.MissBreaksChain | src/main/java/com/hayden/persistence/recursive/one_to_many/RecursiveLoadListener.java:84-91 | a missing id adds nothing, and the id after it is added nowhere |
| RecursiveOneToMany.Attach | src/main/java/com/hayden/persistence/recursive/one_to_many/RecursiveLoadListener.java:83-91 | one inner-loop turn applies StepLink to the touched entities and advances the head to the lookup result |
| RecursiveOneToMany.Advance | src/main/java/com/hayden/persistence/recursive/one_to_many/RecursiveLoadListener.java:80-93 | one turn extends the applied additions by StepLink, relative to the fields before the walk |
| RecursiveOneToMany.Walk | src/main/java/com/hayden/persistence/recursive/one_to_many/RecursiveLoadListener.java:80-93 | the loop applies Links over the whole visit order |
| RecursiveOneToMany.LinkLevels | src/main/java/com/hayden/persistence/recursive/one_to_many/RecursiveLoadListener.java:74-93 | starting at the triggering entity, every touched entity's children and parent end as Links leaves them |
| RecursiveOneToMany.FieldPlan | src/main/java/com/hayden/persistence/recursive/one_to_many/RecursiveLoadListener.java:45-93 | no id field or unreadable id fails first; for non-null row ids, NumberFormat exactly when a level does not parse; succeeds exactly when the id field exists, the id is readable, the levels parse and LookupSpec succeeds; otherwise the lookup's error is the field's error; on success the additions are the walk over the level-ordered ids |
| RecursiveOneToMany.PlanStopsAtError | src/main/java/com/hayden/persistence/recursive/one_to_many/RecursiveLoadListener.java:40-97 | a failing field ends the listener |
| RecursiveOneToMany.PlanStep | src/main/java/com/hayden/persistence/recursive/one_to_many/RecursiveLoadListener.java:42-43 | only fields annotated OneToManyRecursive contribute additions, once each |
| RecursiveOneToMany.HandleField | src/main/java/com/hayden/persistence/recursive/one_to_many/RecursiveLoadListener.java:43-95 | one annotated field succeeds exactly when FieldPlan does, and changes fields exactly by its additions |
| RecursiveOneToMany.WalkField | src/main/java/com/hayden/persistence/recursive/one_to_many/RecursiveLoadListener.java:74-93 | the walk changes the triggering entity and all loaded entities exactly as its additions say |
| RecursiveOneToMany.OnPostLoad | src/main/java/com/hayden/persistence/recursive/one_to_many/RecursiveLoadListener.java:40-97 | fails exactly when the plan records an error; children and parent of the triggering and every loaded entity end as the planned additions leave them |
| Cdc.DeclaresSome | src/main/java/com/hayden/persistence/cdc/CdcProcessor.java:48-56 | a name is declared exactly when some subscriber lists it |
| Cdc.RegisterNamesAt | src/main/java/com/hayden/persistence/cdc/CdcProcessor.java:50-56 | registering one subscriber creates a name's list on first use and appends the subscriber once per occurrence of the name |
| Cdc.RegisterAllAt | src/main/java/com/hayden/persistence/cdc/CdcProcessor.java:48-62 | after registering all subscribers a name is mapped exactly when it was or is declared, and its list gains SubscribersOf, in registration order |
| Cdc.ActiveNames | src/main/java/com/hayden/persistence/cdc/CdcProcessor.java:100-102 | the active names are exactly the names some subscriber declared |
| Cdc.ActiveNamesAll | src/main/java/com/hayden/persistence/cdc/CdcProcessor.java:100-102 | the same, for every name at once |
| Cdc.RegisteredLists | src/main/java/com/hayden/persistence/cdc/CdcProcessor.java:48-56 | each list is the reference SubscribersOf: order and duplicates preserved |
| Cdc.SubscribersOfMembers | src/main/java/com/hayden/persistence/cdc/CdcProcessor.java:48-56 | a subscriber is in a name's list exactly when it declares the name |
| Cdc.RegisteredListsNonEmpty | src/main/java/com/hayden/persistence/cdc/CdcProcessor.java:51-56 | no name maps to an empty list |
| Cdc.CallsOfSound | src/main/java/com/hayden/persistence/cdc/CdcProcessor.java:86-88 | every call on a subscriber uses one of its names as both table and operation, with data {name ↦ parameter} |
| Cdc.CallsOfComplete | src/main/java/com/hayden/persistence/cdc/CdcProcessor.java:86-88 | the k-th call on a subscriber is for its k-th name |
| Cdc.DispatchSound | src/main/java/com/hayden/persistence/cdc/CdcProcessor.java:86-88 | every callback goes to a listed subscriber, for one of its names, with data {name ↦ parameter} |
| Cdc.DispatchComplete | src/main/java/com/hayden/persistence/cdc/CdcProcessor.java:86-88 | every listed subscriber is called once per each of its names, in list order |
| Cdc.CallsForLength | src/main/java/com/hayden/persistence/cdc/CdcProcessor.java:86-88 | the number of callbacks is the total number of names over the list |
| Cdc.UnregisteredCallsNobody | src/main/java/com/hayden/persistence/cdc/CdcProcessor.java:81-85 | a notification whose name nobody declared calls nobody |
| Cdc.CallSubscriber | src/main/java/com/hayden/persistence/cdc/CdcProcessor.java:86-88 | the inner loop makes exactly CallsOf for the subscriber's own names |
| Cdc.CdcProcessor.Initialize | src/main/java/com/hayden/persistence/cdc/CdcProcessor.java:41-62 | with no subscribers nothing is registered and polling is not started; otherwise the map becomes RegisterAll over the subscribers in order and polling starts; from an empty map the processor is Registered |
| Cdc.CdcProcessor.RegisterSubscriber | src/main/java/com/hayden/persistence/cdc/CdcProcessor.java:49-60 | one subscriber's names are registered in order |
| Cdc.CdcProcessor.SubscriptionsActive | src/main/java/com/hayden/persistence/cdc/CdcProcessor.java:100-102 | once Registered, exactly the names some subscriber declares; empty when there are no subscribers |
| Cdc.CdcProcessor.Dispatch | src/main/java/com/hayden/persistence/cdc/CdcProcessor.java:80-91 | the callbacks are DispatchSpec of the map, which Dispatch does not change |
| Models.LongHashCode | src/main/java/com/hayden/persistence/models/EqualsAndHashCodeId.java:27 | an id in the int range hashes like the int itself: a non-negative one to itself, a negative one v to -v - 1 (the complement of its low half against the all-ones high half) |
| Models.EqualsId | src/main/java/com/hayden/persistence/models/EqualsAndHashCodeId.java:9-22 | identity is true even with a null id; null or another class is false; a null id on either side of distinct same-class objects fails; otherwise id equality |
| Models.HashCodeId | src/main/java/com/hayden/persistence/models/EqualsAndHashCodeId.java:24-28 | fails exactly on a null id, else Long.hashCode of the id |
| Models.EqualsIdSymmetric | src/main/java/com/hayden/persistence/models/EqualsAndHashCodeId.java:9-22 | equalsId is symmetric, including which pairs fail |
| Models.EqualsIdTransitive | src/main/java/com/hayden/persistence/models/EqualsAndHashCodeId.java:21 | equalsId is transitive on the pairs it accepts |
| Models.EqualsIdConsistentWithHash | src/main/java/com/hayden/persistence/models/EqualsAndHashCodeId.java:21-27 | objects equal under equalsId have equal hashCodeId |
| Models.NullIdEqualsItselfButHasNoHash | src/main/java/com/hayden/persistence/models/EqualsAndHashCodeId.java:10-26 | an entity without id equals itself but has no hash code |

## Left out

- The pause barrier's phaser rendezvous is not modelled.
  - `pauseWaitersAndRun` is an abstract step that runs the method and returns value-or-error.
  - The waiter `checkpointIfPaused` is an opaque step, recorded only as a flag.
  - PauseBarrier.java declares `pauseThenRun` and no `ResultOrExc`. The model follows the aspect's calls.
- Thread blocking, fairness (FIFO `new Semaphore(n, true)`) and real interleavings are not modelled.
  - An acquire that would block is admitted only when a permit is free, the thread already holds the semaphore, or the wait is interrupted. This is `CanAcquire`, a precondition.
  - `ConcurrentHashMap` atomicity is taken as given.
- The configuration is a map from name to permits, plus `maxAccess`.
  - The aspect reads `semaphores` and `permits()`, which the shown LimitAccessConfigProperties does not declare.
  - It declares only `maxAccess = 170`, which is `DefaultMaxAccess`.
- `DbDataSourceTrigger.currentKey()` is the input `currentKey`; `None` means there is no trigger.
- The `@Around` pointcut and `resolveAnnotationForMethod` are not modelled. The resolved annotation is an input, and `None` means it is missing.
- Logging is not modelled. `Thread.interrupt()` appears only as the `interruptFlag` of a completion.
- `LimitAccess.skipIfNotAvailable` is never read by the aspect, so it has no effect.
- The wrapped method is not run.
  - Its first outcome and the outcome of the retry after an InterruptedException are inputs.
  - Its return value is an `int` standing for any Object.
- In the listeners, the JDBC query, the HQL text and the `EntityManager` query are not modelled. Their results are inputs.
  - This includes the degenerate `in ( )` query when no id came back.
  - Each declared field gets one `QueryResult`, ignored unless the field is annotated.
- Reflection failures of `doSetDeclaredField` (`NoSuchFieldException` for a misnamed field) are not modelled.
  - The child, children and parent fields are fixed fields of `Entity`.
  - Only `retrieveIdField` failures and an unreadable id on the triggering entity are modelled, as errors.
- `MapFunctions.CollectMap` and `CollectMapGroupBy` come from a library whose source is not available here.
  - The model lets a later entity with the same key replace an earlier one.
  - Within a level, ids keep row order.
  - A null map key is an error.
- The one-to-many walk is a single loop over the concatenated visit order (`Visit(GroupByLevel(…))`), not the nested level and id loops. The head is carried across levels exactly as in the nested loops.
- `Integer.parseInt` and `Long.toString` are modelled on ASCII decimal digits only. Non-ASCII Unicode digits, which `parseInt` also accepts, are not modelled.
- A NULL level column is not modelled. `String.valueOf(null)` gives "null", which fails to parse like any other non-number.
- RecursiveOneToMany.FieldPlan: the recursive query's id column is taken to be non-null (`Row.id` is a string).
  - A NULL id makes `.map(Object::toString)` throw NullPointerException while the HQL text is built (RecursiveLoadListener.java:55), before any level is parsed and before any addition.
  - That exception is not modelled.
- RecursiveOneToOne.FieldPlan: the ids the recursive query returns are taken to be non-null (`QueryResult.ids` holds `int`s).
  - A NULL id makes `.map(Object::toString)` throw NullPointerException while the HQL text is built (RecursiveOneToOneLoadListener.java:53), before any link is made.
  - That exception is not modelled.
- RecursiveOneToMany.AddChild: `OtherList` stands for a modifiable `List`.
  - An unmodifiable list, such as a field initialised with `List.of()`, makes `l.add` throw UnsupportedOperationException (RecursiveLoadListener.java:131).
  - The model appends instead, and that exception is not modelled.
- RecursiveOneToMany.DoSetDeclaredField: it inherits AddChild's assumption. The UnsupportedOperationException of an unmodifiable children list, and the partly linked state it would leave mid-walk, are not modelled.
- `PersistentBag.add` appends in place and `List.add` mutates the list object. The model replaces the field's value with the longer list. Aliasing of one list object between several entities is therefore not captured.
- In `CdcProcessor`, `executor.initialize()`, the scheduled thread pool, `dbTrigger.doWithKey`, the Postgres LISTEN connection and `executor.notifications()` are not modelled.
  - A notification is an input of `Dispatch`.
  - Starting the polling is the `polling` flag.
  - The callbacks come back as a list instead of being invoked.
- Subscription names and notification payloads are an abstract type with equality, since the registry only compares them. Their characters are not modelled.
- `Objects.hashCode` is modelled for `Long` ids only. JpaHibernateAuditedIded and JpaInitIded return their Long `uuid` column as the id.
- JpaHibernateAuditedIded and JpaInitIded only supply that id to `EqualsAndHashCodeId`. They are the class `Models.Ided`.
- Models.HashCodeId / Models.EqualsId: subclasses of the generic `AuditedEntity<ID>` whose id is not a Long are not modelled. Examples are a String or a UUID id, whose `Objects.hashCode` and `Objects.equals` are those of the id's own type. AuditedEntity declares no `uuid`, and its id is whatever a subclass's `equalsAndHashCodeId()` returns.
- Models.HashCodeId: requires the id to fit in 64 signed bits, as a Java Long always does.
- In `CdcProcessor`, exceptions raised during dispatch are not modelled.
  - An `onDataChange` that throws ends the `compute` at that point, so the remaining callbacks for that notification are not made.
  - The exception also escapes the task given to `scheduleAtFixedRate`, which cancels every later poll.
  - `Map.of` throws NullPointerException on a null payload.
  - `Dispatch`, `DispatchComplete` and `DispatchSound` describe dispatch when every callback returns normally and the payload is non-null.
- In the one-to-one listener, the ids of the recursive query come back as `Object`s from `queryForList(…, Object.class)`. `q.get(commit)` compares them with the boxed `equals`.
  - An `Integer` id therefore never finds an entity keyed by a `Long` id.
  - The model gives query ids and entity ids the same type, `int`. It describes the case where the JDBC driver returns the id column with the id field's own boxed type.

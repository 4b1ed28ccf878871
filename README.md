# A verified model of the Python 2 name obfuscator

This project models class `Obfuscator` of `obfuscator.py`, the renaming pass of
a source obfuscator for Python 2 modules. It walks one module's syntax tree and
does four things:

- It renames every identifier it may rename to a short alias: 'a', 'b', … 'z', 'aa', 'ab', ….
- It replaces every string constant with an expression that rebuilds the string from its byte values.
- It drops `__slots__` declarations from class bodies.
- It re-exports the public names of the module and of each class under their original spelling.

Files and modules:

| file | module | what it holds |
|---|---|---|
| `aliases.dfy` | `Aliases` | The alias alphabet and its shortlex order. The little-endian digit buffer `__current__` and its increment with carry (`Succ`), as a function with its arithmetic meaning (`Weight`, bijective base 26). Python 2.7's keyword list. |
| `registry.dfy` | `Registry` | Class `RunContext`, the state one run shares between all the files it processes: the digit buffer, and the name-to-alias registry the command line hands to every `Obfuscator`. `Make` is `_make`'s carry loop. `Register` and `Redraw` are the registry half of `_rename`. |
| `syntax.dfy` | `Syntax` | The part of the Python 2 syntax tree the walker treats specially. Every other kind is `Other`, which is only walked through. |
| `literals.dfy` | `Literals` | `_obfuscateStringLiteral` and `_obfuscateUnicodeLiteral`. UTF-8 in both directions. A small evaluator for the expression forms the encoder emits. |
| `slots.dfy` | `Slots` | The `__slots__` stripping of `visit_ClassDef`, as a loop proved against a function. |
| `exports.dfy` | `Exports` | The re-export statements and their meaning over an environment of bindings. |
| `obfuscator.dfy` | `Obfuscation` | Class `Obfuscator`: `_rename`, `_defered`, `_saveState`/`_restoreState`, the assignment-target helpers, every `visit_*` method, and `obfuscate`. |

The tree is a value, and each `Visit*` method returns the rewritten node, as a
`NodeTransformer` does. The member name of an `Attribute` node is the only field
the source patches after the node has been visited, so it does not sit in the
node. It lives in the `Obfuscator`'s `arena: seq<string>`, at the node's
`slot`, and the deferred reads in `pending` are lists of slots.

Where the source raises, the visitor returns `ok == false` and the walk stops.
This happens for a `self[k] = v` target: `_renameAssignTarget` reads `.attr` of
a `Subscript`.

The four scope stacks `_attrsStack`, `_methodStack`, `_mapperStack` and
`_pendingStack` are always pushed and popped together. They are one field,
`stack: seq<Frame>`.

Behaviour of the source that the model reproduces as written:

- `_renameAssignTuple` records every name of a module-level tuple target as a constant, private names included (obfuscator.py:84-85). A plain name target is recorded only when public (obfuscator.py:179-181).
- `_restoreState` merges the saved pending reads into the current ones with `dict.update` (obfuscator.py:78). On a name in both, the saved list replaces the current one.
- A public function is queued in the current `_methods` (obfuscator.py:255-257). `_saveState` empties that list when a class body is entered (obfuscator.py:71), `visit_ClassDef` re-exports what the body queued (obfuscator.py:218-219), and `_restoreState` brings back the enclosing list (obfuscator.py:77). So a class's methods, and the functions nested in them, are re-exported in the class body only. Functions do not save state, so a public function nested in a module-level function is re-exported at module level. Both re-exports read an alias bound only in a function's local scope, so executing the class body or importing the module raises `NameError`.
- `_classes` is not part of the saved state (obfuscator.py:66-78). A public class at any depth, nested in a class body or in a function, is queued in `_classes` (obfuscator.py:197-198) and re-exported at module level, where its alias is not bound either. Importing the rewritten module then raises `NameError`. The model reproduces all this queueing, but the run-time errors are outside the model.
- `self._x = v` is renamed by `_renameAssignTarget`. Then `generic_visit` walks the target again, and `visit_Attribute` sees the alias as the member name. It then defers or renames the alias as any other member read.
- `_mapper[name]` is set before the keyword redraw. Only its key set is ever read.

The model differs from the code in one respect, explained under "Findings". The
re-export statements are one simultaneous assignment rather than one
assignment per pair; "Left out" names the members this affects.

## Model

| member | source | states |
|---|---|---|
| Aliases.Succ | obfuscator.py:34-42 | The incremented buffer is again a non-empty word of letters. It keeps its length, or it grows by one digit and is then all 'a'. |
| Aliases.SuccWeight | obfuscator.py:34-42 | One increment adds exactly one to the number the buffer stands for in bijective base 26. |
| Aliases.WeightInjective | obfuscator.py:31-43 | Two buffers that stand for the same number are equal, so distinct draws give distinct buffers. |
| Aliases.SuccOrdered | obfuscator.py:33-43 | The alias drawn next (the buffer reversed) strictly follows the current one in shortlex order. |
| Aliases.SuccGrows | obfuscator.py:37-42 | The buffer gains a digit if and only if every digit was 'z'. |
| Aliases.SuccAt | obfuscator.py:35-39 | The increment is k wrapped digits, then one raised digit, with the rest unchanged, as the carry loop leaves it. |
| Aliases.SuccAllCarry | obfuscator.py:40-42 | When every digit carries, the buffer becomes all 'a' and one digit longer. |
| Aliases.BufferAfter | obfuscator.py:15 | The buffer after any number of draws from the initial 'a' is a non-empty word of letters. |
| Aliases.NthAliasWeight | obfuscator.py:31-43 | The buffer after n draws stands for n + 1. |
| Aliases.NthAliasOrdered | obfuscator.py:31-43 | Aliases come out in strictly increasing shortlex order, so no alias is handed out twice. |
| Aliases.NextFree | obfuscator.py:52-53 | The buffer that drawing until the alias is not a keyword settles on. Its alias is not a keyword. |
| Aliases.NextFreeFirst | obfuscator.py:52-53 | That buffer is the n-th draw from the start for some n, and all n earlier draws were keywords. It is the first non-keyword draw. |
| Registry.RunContext.constructor | obfuscator.py:15 | A run starts with the buffer at 'a', an empty registry and Python 2.7's keyword list. |
| Registry.RunContext.Make | obfuscator.py:31-43 | Returns the buffer reversed and leaves it incremented. The alias is a word of letters, never drawn before, and it precedes every later draw. |
| Registry.RunContext.Increment | obfuscator.py:34-42 | The carry loop leaves the buffer equal to `Succ` of the old buffer. |
| Registry.RunContext.Register | obfuscator.py:48-49 | A name the registry lacks gets the current buffer reversed, which no earlier draw produced. The buffer is incremented once, and every other entry is kept. |
| Registry.RunContext.Redraw1 | obfuscator.py:53 | One redraw sets the name's alias to the current buffer reversed and increments the buffer once. The new alias is fresh and follows the old one in shortlex order. |
| Registry.RunContext.Redraw | obfuscator.py:52-53 | A non-keyword alias is left alone and the buffer is unchanged. A keyword alias is replaced by the first non-keyword draw from the current buffer (`NextFree`), which is fresh, and the buffer ends one past that draw. No other entry changes, and the registry stays injective. |
| Literals.DecodeFirstEncodeChar | obfuscator.py:125 | Decoding the first character of an encoded code point gives it back, whatever bytes follow. |
| Literals.DecodeFirstCanonical | obfuscator.py:125 | A code point the decoder accepts was spelled by exactly its own UTF-8 encoding. |
| Literals.Utf8RoundTrip | obfuscator.py:125 | Decoding the UTF-8 encoding of any unicode string gives the string back. |
| Literals.Utf8DecodeCanonical | obfuscator.py:125 | Bytes the decoder accepts are exactly the encoding of the decoded string. |
| Literals.StringLiteral | obfuscator.py:101-117 | The expression is `str(bytearray([...]))`. Its list holds one `Num` per byte, in order, equal to that byte, so only integer constants in 0..255 and no string constant. |
| Literals.UnicodeLiteral | obfuscator.py:119-130 | The expression calls `.decode('utf-8')`, whose member name is in the given arena cell, on the byte-string form of the text's UTF-8 bytes. |
| Literals.ByteValuesNumList | obfuscator.py:102-104 | The list of byte constants reads back as exactly the bytes it was built from. |
| Literals.StringLiteralEval | obfuscator.py:101-117 | The byte-string expression evaluates to the bytes it encodes. |
| Literals.EncodedLiteralFaithful | obfuscator.py:144-151 | A rewritten `str` or `unicode` constant evaluates to the same value as the constant it replaces. |
| Slots.StripSlots | obfuscator.py:202-214 | The two loops leave the body equal to `SlotsStripped` of the original body. |
| Slots.TargetsKeptFilter | obfuscator.py:204-210 | A target survives if and only if it is in the list and is not `__slots__`. No target is added. |
| Slots.TargetsKeptEmpty | obfuscator.py:211-212 | An assignment loses all its targets if and only if every target was `__slots__`. |
| Slots.TargetsKeptIdentity | obfuscator.py:204-210 | A target list without `__slots__` is left exactly as it is. |
| Slots.SlotsStrippedAppend | obfuscator.py:213-214 | Stripping works statement by statement, so the kept statements keep their order. |
| Slots.SlotsStrippedClean | obfuscator.py:202-214 | After stripping, no assignment of the body names `__slots__` and none is left without targets. |
| Slots.SlotsStrippedIdentity | obfuscator.py:202-214 | A body without `__slots__` declarations is unchanged. |
| Slots.SlotsStrippedIdempotent | obfuscator.py:202-214 | Stripping twice is stripping once. |
| Slots.SlotsStrippedLength | obfuscator.py:211-214 | Exactly the assignments whose targets were all `__slots__` disappear. |
| Exports.ReexportedKeys | obfuscator.py:275-276 | The intended rebinding binds exactly the exported names on top of what was bound. |
| Exports.ReexportedOthers | obfuscator.py:275-276 | A name that is not exported keeps its value. |
| Exports.ReexportedAt | obfuscator.py:275-276 | With consistent pairs, every exported name gets the value its alias held before the rebinding. |
| Exports.ReexportedValues | obfuscator.py:275-276 | The intended rebinding, all values at once: exported names get their alias's value and every other name keeps its own. |
| Exports.RebindingsSound | obfuscator.py:275-276 | The in-order statements do reach the intended bindings when no name clobbers an alias that a later statement reads. |
| Exports.RebindingsClobber | obfuscator.py:275-276 | `b = 1; a = 2` re-exported in order as `b = a; a = b` leaves `a` equal to 1 rather than 2. |
| Exports.SimultaneousRebindingSound | obfuscator.py:275-276 | The simultaneous assignment reaches the intended bindings for every set of consistent, bound pairs. |
| Exports.SimultaneousAgrees | obfuscator.py:218-219 | Wherever the in-order statements are right, the simultaneous assignment has the same effect. |
| Obfuscation.TargetsRaiseSome | obfuscator.py:176-185 | An assignment's targets raise if and only if one of them does. |
| Obfuscation.SlotsFreeKept | obfuscator.py:213-216 | Walking a class body without `__slots__` declarations does not bring one back. |
| Obfuscation.RecordedConsistent | obfuscator.py:275 | The pairs recorded for re-export give a name repeated among them the same alias every time. |
| Obfuscation.Obfuscator.constructor | obfuscator.py:17-29 | A new `Obfuscator` starts at level 0 with every list, map and stack empty, sharing the run's registry. |
| Obfuscation.Obfuscator.Rename | obfuscator.py:45-58 | `'self'` is returned and nothing changes. A registered name gets its registry alias and the buffer is unchanged. A new name gets the first non-keyword draw from the buffer (`NextFree`), which is fresh, and the buffer ends one past it. The alias is never a keyword, and no other name's. The first time in the scope, the name joins the scope, its deferred reads are patched to the alias, and its pending entry is removed. Other pending entries are untouched. |
| Obfuscation.Obfuscator.Lookup | obfuscator.py:48-49 | A registered name keeps its alias, which is not a keyword. A new name gets the current buffer reversed, which is fresh, and the buffer is incremented. The first non-keyword draw is then either that alias or the first one after it. |
| Obfuscation.Obfuscator.EnterScope | obfuscator.py:50-57 | The scope records the name. A keyword alias is replaced by the first non-keyword draw (`NextFree`), and a non-keyword alias leaves registry and buffer unchanged. The name's deferred slots get the final alias. |
| Obfuscation.Obfuscator.Release | obfuscator.py:54-57 | Exactly the slots filed under the name are set to the alias, and the name leaves `pending`. |
| Obfuscation.Obfuscator.Patch | obfuscator.py:55-56 | Every listed slot is set to the alias and every other cell is unchanged. |
| Obfuscation.Obfuscator.Defer | obfuscator.py:60-64 | The slot is appended to the list filed under the name it reads, and the list is created if absent. |
| Obfuscation.Obfuscator.SaveState | obfuscator.py:66-72 | The attributes, methods, scope and pending reads are pushed as one frame. Methods and pending start empty, and attributes and scope are kept. |
| Obfuscation.Obfuscator.RestoreState | obfuscator.py:74-78 | The saved attributes, scope and methods come back. The saved pending reads are merged over the current ones, and the frame is popped. |
| Obfuscation.Obfuscator.VisitName | obfuscator.py:153-157 | A `__` name, a builtin or `self` is left alone. Any other name becomes its registry alias. So the result is a renaming of the node (`Renamed`). |
| Obfuscation.Obfuscator.AppendCell | obfuscator.py:122-125 | The `decode` member of the unicode form gets a new arena cell at the end. |
| Obfuscation.Obfuscator.VisitStr | obfuscator.py:144-151 | A `str` or `unicode` constant is replaced by its encoding (`EncodedLiteral`), an expression with the same value. Anything else is returned as it is. |
| Obfuscation.Obfuscator.RenameImports | obfuscator.py:190-191 | Every imported name keeps its name and gets its registry alias as `asname`. |
| Obfuscation.Obfuscator.VisitImport | obfuscator.py:189-193 | Every imported name gets its registry alias as `asname`. |
| Obfuscation.Obfuscator.VisitImportFrom | obfuscator.py:245-249 | Every imported name gets its registry alias as `asname`. The module and the relative level are unchanged. |
| Obfuscation.Obfuscator.VisitGlobal | obfuscator.py:171-173 | Every declared name is replaced by its registry alias, in order. |
| Obfuscation.Obfuscator.RenameAssignTarget | obfuscator.py:91-99 | It raises exactly on a subscript of `self` at the base of a subscript chain. `self.<private>` joins the attributes and is renamed. Every other target changes nothing. |
| Obfuscation.Obfuscator.RenameSelfMember | obfuscator.py:95-97 | The member name is appended to the attributes and its cell is set to its registry alias. |
| Obfuscation.Obfuscator.RenameAssignTuple | obfuscator.py:80-89 | It raises exactly when an element does. At module level it records every name of the tuple, depth first with private names included, with its alias. Below module level it records nothing. |
| Obfuscation.Obfuscator.RenameAssignElement | obfuscator.py:81-89 | Likewise for one element of a tuple. |
| Obfuscation.Obfuscator.RecordConstant | obfuscator.py:85 | The name is renamed and (name, alias) is appended to the constants. |
| Obfuscation.Obfuscator.RenameTarget | obfuscator.py:177-185 | A public name is recorded as a constant at module level. Tuples and member targets are handled as above. |
| Obfuscation.Obfuscator.RenameTargets | obfuscator.py:176-185 | It raises exactly when some target does. At module level the recorded names are exactly the public plain names and all tuple names of the targets, in order. |
| Obfuscation.Obfuscator.Visit | obfuscator.py:132-271 | Every visit keeps the registry's aliases, grows the arena, returns the level to its entry value, leaves the scope stacks as they were, and only appends to the recorded lists. The result is a renaming of the node (`Renamed`): every name, `global` name, imported name, function, parameter and class name is its registry alias unless the source leaves it alone, every string constant is its encoding, `__slots__` declarations are gone from class bodies, and every other node keeps its kind and its other fields. A public function definition has its (name, alias) pair in `methods`, a public class its pair in `classes`, and a module-level assignment every name it records in `constants`. For a module, this holds for each statement of the body. |
| Obfuscation.Obfuscator.VisitCompound | obfuscator.py:132-271 | The same, renaming included, for the node kinds whose visit walks children. |
| Obfuscation.Obfuscator.VisitDefinition | obfuscator.py:175-221 | An assignment, a function or a class definition is visited with the walk invariant, the result is a renaming of it, and its names are put on the re-export lists as above. |
| Obfuscation.Obfuscator.VisitList | obfuscator.py:134 | `generic_visit` of a list field visits each element in order, keeping each one's kind, and each result is a renaming of its element under the final registry. Each public function or class definition and each module-level assignment in the list has its names on the re-export lists. |
| Obfuscation.Obfuscator.GenericVisit | obfuscator.py:134 | `generic_visit` of a module, a tuple, a list or another kind keeps the node's kind and the number of its children, and the result is a renaming of the node. Each child's names are on the re-export lists as `Visit` states. |
| Obfuscation.Obfuscator.VisitSubscript | obfuscator.py:14 | `generic_visit` of a subscript (there is no `visit_Subscript`) walks the value, then the slice. The result is a subscript that renames both. |
| Obfuscation.Obfuscator.VisitCall | obfuscator.py:14 | `generic_visit` of a call (there is no `visit_Call`) walks the callee, then the arguments. The result is a call that renames them. |
| Obfuscation.Obfuscator.VisitBlock | obfuscator.py:132-136 | The statement is walked one level deeper, so it records no constant, and the level is back afterwards. The result is a renaming of the statement. |
| Obfuscation.Obfuscator.VisitAttribute | obfuscator.py:229-237 | On `self`, the node is kept. A member in neither the attributes nor the scope is filed under its name in `pending`, with arena and scope unchanged. Otherwise its cell becomes its registry alias. Any other receiver is walked, and the result is a renaming of the node. |
| Obfuscation.Obfuscator.ReadSelfMember | obfuscator.py:230-235 | A member in neither the attributes nor the scope is filed under its name and nothing else changes. Otherwise its cell becomes its registry alias. |
| Obfuscation.Obfuscator.VisitAssign | obfuscator.py:175-187 | The targets are renamed and, at module level, recorded in order. A raising target stops the walk. The targets and the value are then walked, and the result is a renaming of the assignment. |
| Obfuscation.Obfuscator.GenericVisitAssign | obfuscator.py:186 | The targets, then the value, are walked; the assignment's shape is kept, and targets and value are renamings of the old ones. |
| Obfuscation.Obfuscator.RenameSignature | obfuscator.py:252-261 | The function name is renamed unless it is a `__` name, and it is queued in `methods` when public. `**kwarg` and `*vararg` are renamed when present. |
| Obfuscation.Obfuscator.RenameFunctionName | obfuscator.py:252-257 | A non-`__` name joins the attributes and is renamed. When public it is appended to `methods` with its alias. |
| Obfuscation.Obfuscator.RenameOptional | obfuscator.py:258-261 | A present parameter name is replaced by its registry alias, and an absent one stays absent. |
| Obfuscation.Obfuscator.VisitFunctionDef | obfuscator.py:251-265 | The renamed signature is as above. Parameters, defaults, body and decorators are walked one level deeper. The result is a renaming of the definition. |
| Obfuscation.Obfuscator.VisitFunctionFields | obfuscator.py:262-264 | The four fields are walked one level deeper and the level is restored. Each walked field is a renaming of the old one. |
| Obfuscation.Obfuscator.VisitFields | obfuscator.py:263 | Several list fields are walked in field order. Each keeps its length and element kinds and is a renaming of the old field, and each public function or class definition in them has its pair on the re-export lists. |
| Obfuscation.Obfuscator.VisitClassDef | obfuscator.py:195-221 | The class is renamed and recorded when public. The body is the walked body without `__slots__`, followed by the re-export of the public methods queued in the class. Each public function definition of the stripped body has its (name, alias) pair among the re-exported ones, all of which are public and registered. Attributes, methods and stacks are as before. The class is a renaming of the old one, whose stripped body is the start of the new body. |
| Obfuscation.Obfuscator.EnterClass | obfuscator.py:196-201 | The class name is renamed and recorded, and a scope is opened. |
| Obfuscation.Obfuscator.RenameClass | obfuscator.py:196-198 | The class name gets its registry alias. (name, alias) is appended to the classes when public. |
| Obfuscation.Obfuscator.VisitClassFields | obfuscator.py:199-216 | `__slots__` declarations are stripped first. Bases, body and decorators are then walked one level deeper, each a renaming of the stripped field. The result has no `__slots__` declaration, and each public function definition of the stripped body has its pair queued in `methods`. |
| Obfuscation.Obfuscator.LeaveClass | obfuscator.py:217-220 | The re-export statement covers exactly the scope's queued methods, all public and registered. Then the scope is closed. |
| Obfuscation.RenamedKeeps | obfuscator.py:45-58 | `_rename` only adds to the registry, so a tree that renames another under one registry still does under every later one. |
| Obfuscation.AllRenamedKeeps | obfuscator.py:45-58 | The same for a list of nodes. |
| Obfuscation.WalkedStep | obfuscator.py:134 | A list walked up to some element stays walked, under the grown state, when the next element is visited. |
| Obfuscation.TopLevelExported | obfuscator.py:273-276 | At module level, each listed public function and class pair, and each name recorded by an assignment, is among the constants, classes and methods that are re-exported. |
| Obfuscation.Obfuscator.Obfuscate | obfuscator.py:273-277 | The module body is the walked body followed by the re-export of constants, classes and methods, in that order. Each public top-level function and class of the module has its (name, alias) pair among the exported ones. So does each name a top-level assignment records. Every pair carries its registry alias, and the aliases given before are kept. Each walked statement is a renaming of the original one under the final registry. |

## Left out

- Command-line handling, file reading and writing, backups and directory recursion (`usage`, `obfuscate`/`obfuscateAll`, the getopt loop) are process and filesystem plumbing outside the class.
- `ast.parse` and `unparse.Unparser` are foreign parser and renderer calls. `Obfuscate` takes the parsed tree, plus the member names of its attribute nodes, and returns the rewritten tree.
- `generic_visit` is modelled for the node kinds of `Syntax.Node` only. Every other kind is `Other`, a tag with a list of children that is walked in order.
- `__builtins__.__dict__` is a set given to the constructor. `keyword.iskeyword` is the constant `Aliases.Keywords`, the keyword list of Python 2.7.
- An alias may coincide with a builtin name or with `self`, as in the source. The model proves nothing about the shadowing that follows.
- A module-level assignment to a builtin name records a constant whose alias is never bound in the body, because `visit_Name` skips builtins. The model reproduces this, but the run-time `NameError` it causes is outside the model.
- Run-time equivalence of the rewritten module is not modelled, beyond two pieces. `Literals.Eval` gives the meaning of the literal expressions. `Exports.ExecAll` gives the meaning of the re-export statements.
- Obfuscation.Obfuscator.Visit: when the walk stops on a raising target, the contract promises only the invariant `Valid()`. As in the source, the level may be left raised and the tree partly rewritten; the model does not describe that state further.
- In-place node mutation is modelled as returning rewritten values. Aliasing between tree nodes is not modelled, except for the attribute member names kept in the arena.
- Obfuscation.Obfuscator.LeaveClass: the class body ends with one simultaneous assignment `(m1, m2, …) = (alias1, alias2, …)`, where the source appends one `name = alias` statement per pair (obfuscator.py:218-219). This is the corrected form of the Finding below. Where no name clobbers an alias that a later statement reads, the two have the same effect (Exports.SimultaneousAgrees).
- Obfuscation.Obfuscator.VisitClassDef: its body ends with `LeaveClass`'s simultaneous assignment, not the source's per-pair statements (obfuscator.py:218-219), for the same reason.
- Obfuscation.Obfuscator.Obfuscate: the module body ends with one simultaneous assignment, where the source appends one `name = alias` statement per pair (obfuscator.py:275-276). This is the correction of the Finding below, and `Exports.Rebindings` models the source's form.
- Literals.UnicodeLiteral: a unicode constant is a `seq<char>` of Unicode scalar values, so a lone surrogate such as `u'\ud800'`, which Python 2 stores and encodes to UTF-8, cannot be represented. Its encoding is not modelled.
- Syntax.Call holds only `func` and `args`. A call with keyword arguments, `*args` or `**kwargs` is encoded as `Other`, with all its children in field order, and `generic_visit` walks it the same way.
- Obfuscation.Obfuscator.Visit: `Renamed` compares every identifier the walk renames (names, `global` lists, imported names, function, parameter and class names) with the registry, and every string constant with its encoding. It does not compare the member names of attribute nodes, which live in the arena and are patched by deferred reads, nor the content of the arena cell that holds a unicode form's `decode` member. `VisitStr` states that content, and `Literals.EncodedLiteralFaithful` gives the value it then evaluates to.
- Obfuscation.Obfuscator.Obfuscate: a parsed tree gives every `Attribute` node its own arena slot. The model does not require the slots to be distinct. With a shared slot, a deferred rename patches the member of every node that shares it.

## Findings

| source | as written | input that shows it | evidently intended | confidence | as-written member | corrected member |
|---|---|---|---|---|---|---|
| obfuscator.py:275-276 | One `name = alias` assignment per recorded pair, run in order. The same statements are appended to class bodies at obfuscator.py:218-219. | The module `b = 1` then `a = 2`, in a fresh run: `b` is renamed 'a' and `a` is renamed 'b'. The body becomes `a = 1; b = 2`, and `b = a; a = b` is appended, which leaves `a == 1`. | Each original name is bound to the value its alias had before the re-export, as `(b, a) = (a, b)` does. | not executed | Exports.RebindingsClobber | Exports.SimultaneousRebindingSound |

# luco in Dafny

A model of the core of luco, a small configuration language and its C++
library: the document model of `include/api.hpp` (`luco::value`,
`luco::object`, `luco::array`, `luco::node`, and the JSON and luco writers)
and the character-by-character parser of `include/parser.hpp`
(`parsing_data`, the token helpers, `luco_simple_types`, the five
recognizers and `syntax_error`, `parser::parsing` and
`parser::try_parse(std::string)`).

How the model is laid out:

- `luco_error.dfy` (module `LucoError`): `luco::error_type` and the
  `Result` type that stands for `luco::expected`. It also has the ways a
  C++ call can end without a `luco::error`:
  - `StdException`: a standard exception escapes;
  - `UndefinedBehaviour`: `top()` or `pop()` on an empty `std::stack`;
  - `AssertionFailure`: a failing `assert`;
  - `Diverges`: a loop that never ends.
- `luco_numbers.dfy` (module `LucoNumbers`): `std::stoll`, and the text
  `std::to_string` prints for an `int64_t` and for the double
  `std::stod` reads.
- `luco_value.dfy` (module `LucoValue`): `luco::value`, which is its
  payload plus the `value_type` tag. It covers the kind predicates,
  `try_as_*`, the `set_state` overloads, `type_name` and `stringify`.
  `stringify` comes in two forms: the trimming loop as written, and as
  intended.
- `luco_object.dfy` (module `LucoObject`): the `std::map` inside
  `luco::object`. It is a list of entries sorted by `std::less<std::string>`,
  with insert, overwrite and erase.
- `luco_tree.dfy` (module `LucoTree`): the document as a heap of cells.
  - Each `luco::node` is an index (`Ref`) into the heap.
  - The shared pointers two nodes hold to one container become two
    references to one cell.
  - The `node` operations are functions that return the new heap (`Edit`).
- `luco_document.dfy` (module `LucoDocument`): class `Document`. It holds
  that heap as a field and runs the node operations in place, with the
  loops of `operator+` and of the writers. Each method is proved against
  the functions of `LucoTree` and `LucoDump`.
- `luco_dump.dfy` (module `LucoDump`): `dump_to_json`, `dump_to_luco`,
  `dump_to_string` and `node::stringify`, as functions, with lemmas about
  the text they produce.
- `luco_simple_types.dfy`, `luco_parse_state.dfy`, `luco_recognizers.dfy`
  and `luco_parse.dfy`:
  - `luco_simple_types.dfy` is `get_type` and what it relies on;
  - `luco_parse_state.dfy` is `parsing_data` and the token helpers;
  - `luco_recognizers.dfy` is the recognizers and `parser::parsing`;
  - `luco_parse.dfy` is the loops of `try_parse`.

  Together they state the parser as functions from state to state.
- `luco_parser.dfy` (module `LucoParser`): class `Parser`. Its fields are
  those of `parsing_data` plus the heap. Its methods update them in place
  one character at a time, as the C++ objects do, and each is proved
  equal to the function that states it.
- `luco_lines.dfy` (module `LucoLines`) and `luco_entries.dfy` (module
  `LucoEntries`): what one round of `parser::parsing` does in each state of
  a plain entry (a blank, a key character, a quote, the equal sign, a
  value character, the newline), runs of such rounds, and the whole line
  `key = value`.
- `luco_documents.dfy` (module `LucoDocuments`): how `try_parse` cuts its
  input into chunks, and what it returns on well-formed texts: one entry,
  any `k = v` line, and the document of the `parsing_simple_luco` test.
- `luco_nested.dfy` (module `LucoNested`): the rounds of a `{` opened at
  the end of a line and of the `}` that closes it, and what
  `try_parse("a {\nb = 2\n}\n")` returns.
- `luco_scenarios.dfy` (module `LucoScenarios`): what `try_parse` returns on
  edge cases of the code and on the malformed texts of `tests/test.cpp`.

Two places in the source do not do what they evidently mean to (see
"## Findings"). In both, the model states the code as written in one
member and proves the mismatch. Everything else uses the intended
behaviour: the writers trim the zeros of a double as intended, and the
parser closes a '}' with no frame left under it with the parse error.

Doubles are never computed with. A double is represented by the text
`std::to_string` prints for it (`LucoNumbers.DoubleText`). Where the source
reads a double from text (`std::stod`), the model keeps the digits it has
read: the fraction cut or padded to six decimals, and every integer
digit, where a real double keeps only about 15 to 17 significant digits.
Where the source adds two numbers (`node::operator+`), the model takes the
addition as a parameter.

## Model

| member | source | states |
|---|---|---|
| LucoValue.ExactlyOneKind | include/api.hpp:271-328 | exactly one of is_string, is_double, is_integer, is_boolean, is_null and is_empty holds of any value, and is_number is is_double or is_integer |
| LucoValue.TypeName | include/api.hpp:629-658 | type_name answers "string", "double", "integer", "boolean", "null" or "none", each exactly when the value holds that kind |
| LucoValue.TryAsString | include/api.hpp:348-358 | succeeds exactly on a string, returning it; wrong_type otherwise |
| LucoValue.TryAsNumber | include/api.hpp:365-382 | succeeds exactly on a double or an integer, returning that number; wrong_type otherwise |
| LucoValue.TryAsInteger | include/api.hpp:389-399 | succeeds exactly on an integer, returning it; wrong_type otherwise |
| LucoValue.TryAsDouble | include/api.hpp:406-416 | succeeds exactly on a double, returning it; wrong_type otherwise |
| LucoValue.TryAsBoolean | include/api.hpp:423-433 | succeeds exactly on a boolean, returning it; wrong_type otherwise |
| LucoValue.TryAsNull | include/api.hpp:440-450 | succeeds exactly on null; wrong_type otherwise |
| LucoValue.FromString | include/api.hpp:99-140 | a value built from a string has the tag that matches its payload, and try_as_string gives the string back |
| LucoValue.FromInteger | include/api.hpp:99-140 | a value built from an integer is tagged integer, and try_as_integer gives back the int64_t conversion of the integer (the integer itself when it fits) |
| LucoValue.FromDouble | include/api.hpp:99-140 | a value built from a double is tagged double, and try_as_double and try_as_number give the double back |
| LucoValue.FromBoolean | include/api.hpp:99-140 | a value built from a bool is tagged boolean, and try_as_boolean gives the bool back |
| LucoValue.FromNull | include/api.hpp:99-140 | a value built from null_type is tagged null, and try_as_null succeeds |
| LucoValue.Nothing | include/api.hpp:232-235 | the default value is empty, tagged none, and named "none" |
| LucoValue.SetStateText | include/api.hpp:142-175 | set_state(text, t) fails with wrong_type exactly for unknown and temp_escape_type. A failing conversion throws and leaves only the tag changed. On success the tag is t, the payload matches the tag (except for `number`), a string keeps the text, and a boolean is true exactly for "true" |
| LucoValue.SetDoubleText | include/api.hpp:146-149 | double_t and number succeed when the text has the decimal shape std::stod reads (at least one digit), fail with the exception and only the tag changed otherwise, and hold the digits read; the out_of_range of std::stod is not modelled (see "## Left out") |
| LucoValue.SetIntegerText | include/api.hpp:150-152 | integer succeeds exactly when std::stoll accepts the text, and holds its value |
| LucoValue.TrimZerosOfDecimal | include/api.hpp:564-597 | the intended trimming of digits around one '.' keeps the integer digits and the significant fraction digits, or a single 0 when there are none |
| LucoValue.StringifyParsedDecimal | include/api.hpp:558-623 | with the intended trimming, stringify of the double std::stod reads from a shortest decimal (at most nine integer digits, one to six fraction digits, no trailing zero) gives that decimal back; below 10^9 the nearest double differs from the decimal by less than half of std::to_string's last printed digit |
| LucoValue.PopZerosAtTheEnd | include/api.hpp:564-597 | the trimming loop as intended: it removes the trailing zeros of the fraction, keeping at least one digit after '.' |
| LucoValue.StringifyValue | include/api.hpp:558-623 | stringify with the intended trimming loop computes Stringify |
| LucoValue.PopZerosAtTheEndAsWritten | include/api.hpp:564-597 | the trimming loop as written computes AsWrittenTrim |
| LucoValue.TrimmingAsWrittenDropsDigits | include/api.hpp:564-597 | as written, "10.000000" becomes "10" and "1.050000" becomes "1.0"; as intended they become "10.0" and "1.05" |
| LucoNumbers.StollOfIntToString | include/api.hpp:150-152 | std::stoll reads back every int64_t that std::to_string prints |
| LucoNumbers.Wrap64 | include/api.hpp:99-140 | the conversion of a wider integer to int64_t leaves a value in range unchanged and is congruent modulo 2^64 |
| LucoNumbers.StodOfDecimal | include/api.hpp:146-149 | std::stod of digits around one '.' fails when there is no digit, and otherwise prints the digits fixed to six decimals; the out_of_range of std::stod is not modelled (see "## Left out") |
| LucoObject.LessTotal | include/api.hpp:1131 | the key order of std::map (std::less of std::string) is total; it is also irreflexive (LessIrreflexive) and transitive (LessTransitive) |
| LucoObject.Insert | include/api.hpp:1155-1158 | insert keeps the entries sorted by key, maps the key to the new node whether or not it was there, leaves every other key alone, and grows by one exactly when the key is new |
| LucoObject.Erase | include/api.hpp:1165-1168 | erase keeps the entries sorted, removes exactly that key, and shrinks by one exactly when the key was there |
| LucoObject.InsertAllUnion | include/api.hpp:2118-2131 | inserting the entries of one object into another gives the union of the two maps, the inserted one winning on a shared key |
| LucoObject.SortedUnique | include/api.hpp:1131 | two sorted entry lists with the same map are equal: the order of an object is determined by its keys |
| LucoTree.Children | include/api.hpp:669-670 | the nodes a container holds: the elements of an array, the items of an object in key order, none for a value |
| LucoTree.NewCell | include/api.hpp:1339-1364 | node(node_type) makes a node of that kind: an empty value, an empty array or an empty object |
| LucoTree.NodeTypeName | include/api.hpp:1791-1806 | "node value", "node array" or "node object", each exactly for that kind |
| LucoTree.NodeValueType | include/api.hpp:1933-1940 | the value's tag on a value node, none on a container |
| LucoTree.NodeValueTypeName | include/api.hpp:1942-1949 | the value's type_name on a value node, "none" on a container |
| LucoTree.TryAsValue | include/api.hpp:1643-1652 | succeeds exactly on a value node, giving its value; wrong_type otherwise |
| LucoTree.TryAsArray | include/api.hpp:1654-1663 | succeeds exactly on an array node, giving its elements; wrong_type otherwise |
| LucoTree.TryAsObject | include/api.hpp:1665-1674 | succeeds exactly on an object node, giving its entries; wrong_type otherwise |
| LucoTree.NodeTryAsString | include/api.hpp:1808-1826 | succeeds exactly on a value node holding a string; wrong_type otherwise |
| LucoTree.NodeTryAsInteger | include/api.hpp:1828-1835 | succeeds exactly on a value node holding an integer; wrong_type otherwise |
| LucoTree.NodeTryAsDouble | include/api.hpp:1837-1844 | succeeds exactly on a value node holding a double; wrong_type otherwise |
| LucoTree.NodeTryAsNumber | include/api.hpp:1846-1853 | succeeds exactly on a value node holding a number, as the value's try_as_number does; wrong_type otherwise |
| LucoTree.NodeTryAsBoolean | include/api.hpp:1855-1862 | succeeds exactly on a value node holding a boolean; wrong_type otherwise |
| LucoTree.NodeTryAsNull | include/api.hpp:1864-1871 | succeeds exactly on a value node holding null; wrong_type otherwise |
| LucoTree.AtKey | include/api.hpp:2004-2018 | try_at(key) succeeds exactly when contains(key) holds, giving the node under the key. It is wrong_type on a non-object and key_not_found on a missing key |
| LucoTree.AtIndex | include/api.hpp:1993-2002 | at(index) succeeds exactly on an array with more than index elements, giving that element. It is wrong_type on a non-array and key_not_found past the end |
| LucoTree.TryAtIndex | include/api.hpp:2020-2030 | try_at(index) succeeds exactly on an array with more than index elements. It is key_not_found on a non-array, and past the end std::vector::at throws |
| LucoTree.ContainsIffFound | include/api.hpp:1963-2018 | contains(key) holds exactly when try_at(key) succeeds, and otherwise try_at fails with wrong_type or key_not_found |
| LucoTree.Bind | include/api.hpp:1339-1364 | a node argument is shared as it is; a value argument becomes a new node at the end of the heap |
| LucoTree.Insert | include/api.hpp:1613-1623 | node::insert on an object stores the node under the key, overwriting it, and changes nothing else. On anything else the heap is unchanged and the result is wrong_type. The heap stays well formed and no node changes kind |
| LucoTree.PushBack | include/api.hpp:1625-1636 | node::push_back on an array appends the node and changes nothing else; wrong_type and no change otherwise |
| LucoTree.AddToArray | include/api.hpp:1593-1611 | add_node_to_array replaces the element at an index inside the array and changes nothing else. On a non-array or an index past the end it changes nothing and fails |
| LucoTree.Assign | include/api.hpp:2032-2046 | assigning to node[key] or node[index] fails as the lookup fails; otherwise it is insert or add_node_to_array |
| LucoTree.AssignMemberKeepsKeys | include/api.hpp:2032-2046 | assigning to an existing key keeps the object's key set, and the key then leads to the assigned node |
| LucoTree.SharedNodeSeesChanges | include/api.hpp:1613-1636 | a container stored in an object is shared: pushing onto it afterwards is seen through the object |
| LucoTree.Plus | include/api.hpp:2111-2168 | operator+ of two nodes of different kinds fails with wrong_type. With two objects it gives a new object holding the union of their maps (the right one winning). With two arrays it gives a new array holding the concatenation. With two values it gives what PlusValues gives. The heap is otherwise unchanged |
| LucoTree.PlusValues | include/api.hpp:2146-2167 | on a left string it is the concatenation of two strings; on a left double or integer it is the sum of two numbers; anything else is wrong_type |
| LucoTree.ObjectUnion | include/api.hpp:2118-2131 | the object operator+ builds maps the union of the two maps |
| LucoTree.ArrayConcat | include/api.hpp:2132-2145 | the array operator+ builds holds the elements of both, in order |
| LucoDocument.Document.NewNode | include/api.hpp:1339-1364 | the new node is an empty node of the kind asked for, at the end of the heap |
| LucoDocument.Document.Insert | include/api.hpp:1613-1623 | the in-place insert leaves the heap and result LucoTree.Insert gives |
| LucoDocument.Document.PushBack | include/api.hpp:1625-1636 | the in-place push_back leaves the heap and result LucoTree.PushBack gives |
| LucoDocument.Document.AddToArray | include/api.hpp:1593-1611 | the in-place add_node_to_array leaves the heap and result LucoTree.AddToArray gives |
| LucoDocument.Document.Assign | include/api.hpp:2032-2046 | the in-place assignment leaves the heap and result LucoTree.Assign gives |
| LucoDocument.Document.Plus | include/api.hpp:2111-2168 | the loops of operator+ leave the heap and result LucoTree.Plus gives |
| LucoDocument.Document.InsertEntries | include/api.hpp:2120-2130 | the insert loop of the object operator+ leaves the new object holding all entries inserted in order |
| LucoDocument.Document.PushElements | include/api.hpp:2134-2144 | the push_back loop of the array operator+ leaves the new array holding its prior elements followed by the given ones |
| LucoDocument.Document.DumpToJson | include/api.hpp:2175-2245 | dump_to_json returns LucoDump.Json of the node |
| LucoDocument.Document.DumpToLuco | include/api.hpp:2247-2322 | dump_to_luco returns LucoDump.Luco of the node |
| LucoDocument.Document.DumpToString | include/api.hpp:2333-2343 | dump_to_string returns LucoDump.DumpToString of the node |
| LucoDocument.Document.Stringify | include/api.hpp:1951-1961 | node::stringify returns LucoDump.NodeStringify of the node |
| LucoDocument.DumpValue | include/api.hpp:2180-2198 | a value is written as LucoDump.ValueText |
| LucoDump.JsonObjectShape | include/api.hpp:2200-2219 | an object is written in JSON as "{", a newline, its members joined by ",\n" in key order, a newline, the indentation and "}" |
| LucoDump.JsonMembersPrefix | include/api.hpp:2200-2219 | the members written so far are the first count member lines joined by ",\n", followed by ",\n", or by "\n" after the last one |
| LucoDump.QuotesOnlyStrings | include/api.hpp:2180-2198 | a value is written starting with a quote exactly when it is tagged string, and then as the string in quotes |
| LucoDump.ValueTextEverywhere | include/api.hpp:1951-1961 | a value node is written the same way by dump_to_json and dump_to_luco, and node::stringify of it is value::stringify |
| LucoDump.LucoBracedBlock | include/api.hpp:2272-2316 | in luco syntax an array, or an object below the top level, is written as a block that opens with "{" and a newline and ends with "}" |
| LucoDump.LucoTopLevel | include/api.hpp:2333-2343 | dump_to_string of an object writes its members at the top level with no braces, each line starting with its key |
| LucoDump.LucoEntryShape | include/api.hpp:2272-2305 | a member of an object is written as its key, then " = " and the value for a value, or a space and the written container for a container, then a newline |
| LucoDump.JsonRankIrrelevant | include/api.hpp:2175-2245 | the JSON text depends on the document only, not on the ranking used to prove the writer terminates |
| LucoDump.LucoRankIrrelevant | include/api.hpp:2247-2322 | the luco text depends on the document only, not on the ranking used to prove the writer terminates |
| LucoDump.JoinLength | include/api.hpp:2200-2219 | joining texts with a separator gives their total length plus one separator between each two |
| LucoSimpleTypes.IsNumber | include/parser.hpp:553-589 | an integer exactly for non-empty all-digit text, a float exactly for digits around one '.', and not a number otherwise (including the empty text) |
| LucoSimpleTypes.SignedIsNotNumber | include/parser.hpp:553-589 | a leading '-' or '+' makes the text not a number |
| LucoSimpleTypes.IsBoolean | include/parser.hpp:591-605 | true exactly for "on" and "true", false exactly for "off" and "false" |
| LucoSimpleTypes.GetType | include/parser.hpp:513-551 | get_type tries null, then a number, then a boolean, and else keeps the text as a string. An integer wider than int64_t throws. A float without a digit throws; a float outside the double range does not (see "## Left out"). The result's tag always matches its payload |
| LucoSimpleTypes.GetTypeOfDecimal | include/parser.hpp:513-551 | digits around one '.' become the double std::stod reads from them, with no range check (see "## Left out") |
| LucoSimpleTypes.Strip | include/parser.hpp:629-653 | strip_if_unqouted_string keeps a prefix, removes only trailing blanks, and changes only unquoted text that ends in a blank. It never empties non-empty text |
| LucoSimpleTypes.StripIdempotent | include/parser.hpp:629-653 | stripping twice is stripping once |
| LucoSimpleTypes.StripIfUnquoted | include/parser.hpp:629-653 | the loop of strip_if_unqouted_string computes Strip |
| LucoParseState.IsEscaped | include/parser.hpp:373-422 | a character followed by the same character is escaped exactly when it is special. Otherwise it is escaped exactly when the previous character recorded an escape of it that was not yet appended. An escape records the character and its position; no escape clears the record |
| LucoParseState.Delimiter | include/parser.hpp:364-371 | delimiter(ch) holds exactly when the character at the cursor is ch and not escaped |
| LucoParseState.HandleNot | include/parser.hpp:309-335 | handle_not holds for a character outside the set, never for an ordinary character inside it, and for a special character inside it exactly when it is escaped |
| LucoParseState.HandleExpected | include/parser.hpp:337-362 | handle_expected holds only for a character in the list, and always for an ordinary character in the list |
| LucoParseState.Register | include/parser.hpp:479-482 | register_token pushes one frame with the syntax and the cursor's position and changes nothing else |
| LucoParseState.Unregister | include/parser.hpp:493-497 | unregister_token pops the top frame; on an empty hierarchy it is a failing assertion |
| LucoParseState.UnregisterRegister | include/parser.hpp:479-497 | unregistering right after registering gives back the state before |
| LucoParseState.RegisteredAfterRegister | include/parser.hpp:291-307 | after registering s, is_registered_token(s) holds, and handle_is(ss) holds exactly when s is in ss |
| LucoParseState.AppendString | include/parser.hpp:655-678 | an ordinary character is always appended to quoted text and appended to unquoted text unless it is a newline |
| LucoParseState.HandleEmptyInString | include/parser.hpp:704-814 | a blank or newline before any text or after a '\' at the end of a line is skipped. With no escape pending, a newline ends unquoted text and a first ordinary character starts unquoted text |
| LucoRecognizers.CommentEnds | include/parser.hpp:821-836 | is_end_of_token holds exactly at a newline in a line comment, or at an unescaped '}' in a nested comment whose count of open '{' is 0 |
| LucoRecognizers.CommentBodyCounts | include/parser.hpp:863-890 | the comment's handle_token changes no key, container or heap and never asks to look again. In a line comment an unescaped '{' turns its frame into a nested comment at the cursor. In a nested comment an unescaped '{' counts one more and an unescaped '}' one less while the count is above 0 |
| LucoRecognizers.CommentTokenOpens | include/parser.hpp:847-891 | an unescaped '#' is consumed and registers a line comment, even inside a comment. Inside a comment every character is consumed. Outside one, any other character is passed on unchanged |
| LucoRecognizers.LineCommentEnds | include/parser.hpp:821-891 | a newline in a line comment is consumed, pops the comment's frame, keeps the count and asks for the newline to be looked at again |
| LucoRecognizers.NestedCommentCounts | include/parser.hpp:821-891 | in a nested comment every character but '#' is consumed. An unescaped '}' at count 0 pops the comment's frame. Otherwise an unescaped '{' counts one more and an unescaped '}' (tested against the escape record the end test left) one less while above 0 |
| LucoRecognizers.KeyBody | include/parser.hpp:1115-1139 | while a key is registered its text is read; an empty key stack is a failing assertion |
| LucoRecognizers.KeyToken | include/parser.hpp:1099-1140 | the key recognizer never changes the heap or luco_objs and never asks for a character again; its only errors are a failing assertion and undefined behaviour |
| LucoRecognizers.InsertValue | include/parser.hpp:1180-1216 | the stripped text of the value gets its type from get_type. In an object it is stored under the stripped key on top of keys, which is popped; in an array it is appended. raw_value is cleared |
| LucoRecognizers.StoreValue | include/parser.hpp:1180-1216 | a typed value is stored in the container on top of luco_objs, under the key for an object and at the end for an array |
| LucoRecognizers.ValueEnd | include/parser.hpp:1164-1178 | a value ends only while one is registered or a flush_value frame is on top; only the flush_value case asks for the character again |
| LucoRecognizers.ValueBody | include/parser.hpp:1251-1288 | while a value is registered its text is read; otherwise nothing is consumed |
| LucoRecognizers.ValueText | include/parser.hpp:1256-1268 | reading the value's text changes only raw_value and the escape record |
| LucoRecognizers.ValueBracketStores | include/parser.hpp:1269-1283 | before an unescaped '{' nothing changes. At one, a transient bracket replaces the value's frame and luco_objs is kept. With no text read, the heap and keys are kept. With text, the result succeeds exactly when insert_value succeeds on the state without the value's frame, and then leaves its heap and keys, with raw_value cleared |
| LucoRecognizers.ValueToken | include/parser.hpp:1236-1293 | the value recognizer asks for a character again only when a flush_value frame is on top |
| LucoRecognizers.ValueFinishStores | include/parser.hpp:1243-1249 | at the end of a value whose text does not wait for the next line, the result succeeds exactly when insert_value does and otherwise has its error. On success the value's frame is popped, raw_value is cleared, and the heap and keys are those insert_value leaves. Before the end the value's text goes on |
| LucoRecognizers.OpeningEnd | include/parser.hpp:908-921 | a transient bracket ends only at '=', '{' or a newline |
| LucoRecognizers.OpenContainerStores | include/parser.hpp:980-1017 | opening fails exactly when luco_objs is empty or its top is a value. On success the new node is pushed on luco_objs: inserted under the key on top of keys in an object, appended in an array. After a flush_value frame the keys and raw_value are kept; otherwise raw_value becomes the new key and is cleared |
| LucoRecognizers.OpeningFinishStrips | include/parser.hpp:943-946 | with no key it is undefined behaviour; otherwise the transient bracket's frame is popped, the key on top is stripped by strip_if_unqouted_string, and the next character decides what is opened |
| LucoRecognizers.OpeningChoiceEqual | include/parser.hpp:948-952 | an unescaped '=' opens an object. It fails exactly when luco_objs is empty or its top is a value. On success an object frame and an equal sign frame are pushed, a new empty object goes on luco_objs, and the text read becomes its first key |
| LucoRecognizers.OpeningChoiceBrace | include/parser.hpp:953-957 | an unescaped '{' after some text opens an object the same way, with an opening bracket frame in place of the equal sign |
| LucoRecognizers.OpeningChoiceNewline | include/parser.hpp:958-962 | a newline opens an array with a flush_value frame. It fails exactly when luco_objs is empty or its top is a value. The keys and the text read are kept for the first element |
| LucoRecognizers.OpeningChoiceBracketArray | include/parser.hpp:963-974 | an unescaped '{' with no text before it opens an array under the key. It fails exactly when luco_objs is empty or its top is not an object. On success an array frame and a transient bracket are pushed and a new empty array goes on luco_objs |
| LucoRecognizers.OpeningChoiceOther | include/parser.hpp:975-979 | any other character, and an '=' that is escaped, is the parse error "expected '{' or '='" |
| LucoRecognizers.OpenBracketArrayStores | include/parser.hpp:963-974 | the array is inserted under the key on top of keys and pushed on luco_objs, and a transient bracket is registered. It fails exactly when luco_objs is empty or its top is not an object |
| LucoRecognizers.OpeningBody | include/parser.hpp:1020-1044 | while a transient bracket is registered its text is read into raw_value and nothing else changes |
| LucoRecognizers.OpeningToken | include/parser.hpp:936-1045 | the opening recognizer keeps the state well formed and never asks for a character again |
| LucoRecognizers.CloseContainer | include/parser.hpp:1355-1399 | closing a container pops its frame, its key when the frame under it is an object, and its entry of luco_objs. Closing the root object is the parse error "more '}' than '{'" |
| LucoRecognizers.CloseContainerAsWritten | include/parser.hpp:1384-1399 | as written, closing the root object reads the top of an empty stack; elsewhere it agrees with CloseContainer |
| LucoRecognizers.ClosingToken | include/parser.hpp:1334-1382 | the closing recognizer keeps the state well formed and never asks for a character again |
| LucoRecognizers.CloseFrameErrors | include/parser.hpp:1343-1365 | a registered closing bracket fails with a failing assertion when there is no key, is undefined behaviour when the closing bracket was the only frame (top() of the empty stack), and is a parse error when the frame under it is no object or array |
| LucoRecognizers.CloseFrameCloses | include/parser.hpp:1343-1365 | a closing bracket that succeeds pops its own frame and the container's, and the container from luco_objs. The key slot it emptied goes when the container sits in an object, and stays empty in an array |
| LucoRecognizers.CloseContainerKeys | include/parser.hpp:1384-1399 | closing a container that sits in an object drops that object's key; in an array the keys stay |
| LucoRecognizers.CloseTransientStores | include/parser.hpp:1366-1377 | '}' right after a transient bracket with no text stores an empty object under the key of the object on top of luco_objs and pops the bracket's frame. It is the only way the character is consumed here, and it succeeds whenever that object and key exist |
| LucoRecognizers.SyntaxError | include/parser.hpp:1424-1485 | syntax_error never consumes, lets blanks and newlines pass, and points every error at the cursor. With no frame anything else is an error, and so are an unescaped '{' in an object and an unescaped '}' |
| LucoRecognizers.SyntaxErrorTail | include/parser.hpp:1440-1485 | after the escaped-quote tests, an unescaped '{' in an object and an unescaped '}' are errors at the cursor |
| LucoRecognizers.Parsing | include/parser.hpp:1508-1540 | a round of parser::parsing keeps the line, the cursor and a well-formed heap |
| LucoRecognizers.DispatchOrder | include/parser.hpp:1508-1540 | the character goes to comment, luco_key, luco_value, opening_bracket, closing_bracket and syntax_error in this order. Each is asked only when all before it passed, and the first that consumes or fails decides |
| LucoParse.RunLine | include/parser.hpp:1641-1662 | parsing a chunk to its end keeps it well formed, leaves the cursor past its end and changes no node's kind |
| LucoParse.Feed | include/parser.hpp:1641-1662 | the chunking loop keeps the state well formed and changes no node's kind |
| LucoParse.Take | include/parser.hpp:1641-1648 | a character other than '\n', ',' and '}' is only added to the chunk |
| LucoParse.EndChunk | include/parser.hpp:1644-1660 | a terminator has the chunk parsed, then starts an empty chunk on the next line number |
| LucoParse.FeedPrefix | include/parser.hpp:1641-1662 | characters that are not terminators are only collected |
| LucoParse.FeedTail | include/parser.hpp:1641-1662 | what follows the last terminator is collected and never parsed |
| LucoParse.RunLineStep | include/parser.hpp:1653-1657 | after a round the cursor moves on, or stays put when the round asked to look again. A request to look again that popped no frame is the stall that never ends (Stalled) |
| LucoParse.RunLineStops | include/parser.hpp:1499-1506 | an error in a round ends the parse with that error |
| LucoParse.Start | include/parser.hpp:1635-1637 | the parse starts on line 1 with one object frame, an empty root object on top of luco_objs and one empty key |
| LucoParse.TryParse | include/parser.hpp:1628-1673 | a successful parse gives a well-formed document whose root is an object |
| LucoParse.StallIsStuck | include/parser.hpp:1653-1657 | a round that asks to look again without popping a frame leaves a state that every later round repeats |
| LucoParse.StalledRunsForever | include/parser.hpp:1653-1657 | such a state is a fixed point: two more rounds give back the same state, so the loop never ends |
| LucoParse.StuckStep | include/parser.hpp:1508-1540 | a round on a stuck state changes at most the escape record and stays stuck |
| LucoParse.StalledOnlySyntaxError | include/parser.hpp:1424-1485 | once stuck, only syntax_error can end the parse (with its error); otherwise the loop diverges |
| LucoLines.BlankInObject | include/parser.hpp:1508-1540 | in an object, between entries, a blank or a newline passes every recognizer and changes nothing |
| LucoLines.BlankAfterEqual | include/parser.hpp:1508-1540 | between an equal sign and its value a blank passes every recognizer and changes nothing |
| LucoLines.KeyStarts | include/parser.hpp:1099-1140 | in an object a plain character starts an unquoted key: a key frame is pushed and a new key holding the character |
| LucoLines.KeyQuoteOpens | include/parser.hpp:1099-1140 | in an object a '"' not doubled opens a quoted key, empty so far |
| LucoLines.KeyGoesOn | include/parser.hpp:1115-1139 | an ordinary character inside a key is appended to the key on top of keys, and nothing else changes |
| LucoLines.KeyQuoteCloses | include/parser.hpp:1115-1139 | the '"' that closes a quoted key ends its text and keeps the key's frame for the '=' or '{' after it |
| LucoLines.KeyEnds | include/parser.hpp:1099-1140 | an '=' or '{' not doubled after a key replaces the key's frame by an equal sign or an opening bracket |
| LucoLines.ValueStarts | include/parser.hpp:1236-1293 | after an equal sign a plain character starts an unquoted value in place of the equal sign |
| LucoLines.ValueQuoteOpens | include/parser.hpp:1236-1293 | after an equal sign a '"' not doubled opens a quoted value, empty so far |
| LucoLines.ValueGoesOn | include/parser.hpp:1251-1288 | an ordinary character inside a value is appended to raw_value, and nothing else changes |
| LucoLines.ValueQuoteCloses | include/parser.hpp:1251-1288 | the '"' that closes a quoted value ends its text |
| LucoLines.ValueEnds | include/parser.hpp:1243-1249 | a newline after a value whose text does not wait for the next line has it stored by insert_value, with its error if it fails, and pops the value's frame |
| LucoLines.InTextPasses | include/parser.hpp:1424-1485 | inside a key or a value, a character that is no bracket, backslash, blank or newline passes opening_bracket, closing_bracket and syntax_error unchanged |
| LucoLines.BlankRun | include/parser.hpp:1641-1662 | a run of blanks between entries or after an equal sign leaves the rest of the chunk to parse as from after the run |
| LucoLines.KeyRun | include/parser.hpp:1641-1662 | a run of ordinary characters in a key is appended to it, one round each |
| LucoLines.ValueRun | include/parser.hpp:1641-1662 | a run of ordinary characters in a value is appended to its text, one round each |
| LucoEntries.KeyWord | include/parser.hpp:1099-1140 | a plain or quoted key followed by '=' pushes its text on keys and leaves an equal sign frame awaiting the value |
| LucoEntries.ValueWord | include/parser.hpp:1236-1293 | a plain or quoted value followed by the newline is read and then stored under its key |
| LucoEntries.AfterEqual | include/parser.hpp:1236-1293 | the blanks after an equal sign and the value after them are read and the value stored under its key |
| LucoEntries.EntryLineStores | include/parser.hpp:1641-1662 | a line `key = value` (blanks allowed around each part, key and value plain or quoted) stores get_type of the stripped value under the stripped key in the object on top of luco_objs; a value get_type refuses ends the parse with its error |
| LucoEntries.EntryLineSets | include/parser.hpp:1641-1662 | such a line whose key strips to k and whose value types to v leaves the heap with v inserted under k, and the cursor past the newline |
| LucoDocuments.FeedChunk | include/parser.hpp:1641-1662 | a chunk that ends at its first '\n', ',' or '}' is collected and parsed as one line before the rest of the text |
| LucoDocuments.NextChunkOk | include/parser.hpp:1644-1660 | after a chunk parsed without error the rest of the text is fed from the next line number with an empty chunk |
| LucoDocuments.ChunkFed | include/parser.hpp:1641-1662 | feeding a chunk that parses to e and then the rest is feeding the rest from the line after e |
| LucoDocuments.EmptyLine | include/parser.hpp:1641-1662 | a chunk that is only a newline in the root object changes nothing |
| LucoDocuments.ParsedAsFed | include/parser.hpp:1628-1673 | a text fed to its end with only the root object's frame left parses to the heap built, rooted at the root object |
| LucoDocuments.UnclosedCommentFails | include/parser.hpp:1665-1670 | a text fed to its end inside a nested comment is the parse error at the comment's line and column |
| LucoDocuments.OneEntry | include/parser.hpp:1628-1673 | try_parse("a=1\n") is the root object whose one entry "a" holds the integer 1 |
| LucoDocuments.SpacedLine | include/parser.hpp:1641-1662 | the line `k = v` in the root object, for a plain key and value, stores get_type(v) under k |
| LucoDocuments.SpacedEntry | include/parser.hpp:1628-1673 | try_parse of `k = v` and a newline, for a plain key and value, is the root object whose one entry k holds get_type(v) |
| LucoDocuments.SimpleLuco | tests/test.cpp:33-61 | try_parse of the parsing_simple_luco text is the root object holding "name" as the string "cat", "age" as the integer 5 and "smol" as the boolean true |
| LucoNested.BracketAtNewline | include/parser.hpp:936-942 | a newline after a key and '{' turns the opening bracket into a transient bracket |
| LucoNested.BracketTextStarts | include/parser.hpp:1020-1044 | under a transient bracket with no text a plain character starts its unquoted text |
| LucoNested.BracketTextGoesOn | include/parser.hpp:1020-1044 | under a transient bracket an ordinary character is appended to its text |
| LucoNested.BracketEqual | include/parser.hpp:943-1017 | an '=' not doubled after the transient bracket's text pops the bracket, strips the key, stores a new object under it, enters that object and makes the text its first key |
| LucoNested.CloseNested | include/parser.hpp:1334-1399 | a '}' not doubled in an object that sits in an object closes it with its key and its entry of luco_objs |
| LucoNested.OpenLine | include/parser.hpp:1099-1140 | the line "a {" in the root object leaves a transient bracket over the key "a " |
| LucoNested.InnerLine | include/parser.hpp:936-1045 | the next line "b = 2" makes "a" an object, enters it and stores the integer 2 under "b" |
| LucoNested.CloseLine | include/parser.hpp:1334-1399 | the line "}" then closes that object, leaving the root object alone |
| LucoNested.NestedObject | include/parser.hpp:1628-1673 | try_parse("a {\nb = 2\n}\n") is the root object holding under "a" an object whose one entry "b" is the integer 2 |
| LucoParser.Parser.constructor | include/parser.hpp:1635-1637 | a new parser holds the initial state of try_parse |
| LucoParser.Parser.IsEscaped | include/parser.hpp:373-422 | the in-place is_escaped leaves the state LucoParseState.IsEscaped gives |
| LucoParser.Parser.Delimiter | include/parser.hpp:364-371 | the in-place delimiter leaves the state LucoParseState.Delimiter gives |
| LucoParser.Parser.CommentToken | include/parser.hpp:847-891 | the comment recognizer run in place does what LucoRecognizers.CommentToken states |
| LucoParser.Parser.KeyToken | include/parser.hpp:1099-1140 | the key recognizer run in place does what LucoRecognizers.KeyToken states |
| LucoParser.Parser.ValueToken | include/parser.hpp:1236-1293 | the value recognizer run in place does what LucoRecognizers.ValueToken states |
| LucoParser.Parser.OpeningToken | include/parser.hpp:936-1045 | the opening recognizer run in place does what LucoRecognizers.OpeningToken states |
| LucoParser.Parser.ClosingToken | include/parser.hpp:1334-1382 | the closing recognizer run in place does what LucoRecognizers.ClosingToken states |
| LucoParser.Parser.SyntaxError | include/parser.hpp:1424-1485 | syntax_error run in place does what LucoRecognizers.SyntaxError states |
| LucoParser.Parser.Parsing | include/parser.hpp:1508-1540 | parser::parsing run in place does what LucoRecognizers.Parsing states |
| LucoParser.Parser.RunLine | include/parser.hpp:1641-1662 | the inner loop over a chunk does what LucoParse.RunLine states |
| LucoParser.Parser.Step | include/parser.hpp:1650-1660 | one turn of the inner loop either ends it as RunLine does, or moves the cursor on (or pops a frame) without changing what RunLine gives |
| LucoParser.Parser.Feed | include/parser.hpp:1641-1662 | the outer loop over the text does what LucoParse.Feed states |
| LucoParser.TryParse | include/parser.hpp:1628-1673 | try_parse(string) run in place returns what LucoParse.TryParse gives |
| LucoScenarios.ClosingTheRoot | include/parser.hpp:1357-1362 | try_parse("}") is the parse error at line 1, column 0 |
| LucoScenarios.ClosingTheRootAsWritten | include/parser.hpp:1384-1399 | as written, the '}' of "}" reaches prepare_for_next_token with only the root frame, which then reads the top of an empty stack |
| LucoScenarios.UnterminatedNestedComment | include/parser.hpp:1665-1670 | try_parse("#{\n") is the parse error at the nested comment's position, line 1, column 1 |
| LucoScenarios.BracedText | include/parser.hpp:1424-1485 | "{" followed by text without a terminator and then "}" is the parse error at line 1, column 0 |
| LucoScenarios.DoubledBraceText | tests/test.cpp:308 | try_parse("{{}") fails with the parse error at line 1, column 2: the doubled '{' is an escaped brace that starts a key "{{", and the unescaped '}' after it is a syntax error |
| LucoScenarios.EscapedBraceStartsKey | include/parser.hpp:1099-1115 | in an object, a '{' doubled at the start of the line is escaped, so the key recognizer registers a key frame with an empty key and reads the '{' into it |
| LucoScenarios.FirstBraceKeyBody | include/parser.hpp:1115-1139 | an escaped '{' that begins a key becomes its first character, and the key is unquoted text |
| LucoScenarios.SecondBraceKeyBody | include/parser.hpp:1115-1139 | a '{' escaped by the one before it is appended to the key's text, and the escape record is cleared |
| LucoScenarios.ClosingBraceEndsNoKey | include/parser.hpp:1099-1140 | an unescaped '}' ending the line neither ends an unquoted key nor is appended to it; the key recognizer passes it on |
| LucoScenarios.NoValueInKey | include/parser.hpp:1236-1293 | while a key is being read, the value recognizer passes every character on unchanged |
| LucoScenarios.InvalidText | tests/test.cpp:307 | try_parse("{invalid}") fails with a parse error |
| LucoScenarios.MissingValueText | tests/test.cpp:309 | try_parse of {"name":} fails with a parse error |
| LucoScenarios.TwoNumbersText | tests/test.cpp:310 | try_parse of {"age":3 5} fails with a parse error |
| LucoScenarios.SplitBooleanText | tests/test.cpp:311 | try_parse of {"smol":tru e} fails with a parse error |
| LucoScenarios.SplitNullText | tests/test.cpp:312 | try_parse of {""key":nu ll} fails with a parse error |

## Left out

- Files and streams: `try_parse` and `parse` of a file, `dump_to_file`,
  `dump_to_stdout` and the logging of `include/log.hpp` read or write
  files and streams. The model covers only parsing a `std::string` and
  returning text.
- `parser::parse` is not part of this model. It throws the error that
  `try_parse` returns.
- `std::stod` and `std::stoll` are modelled as the text they accept with
  the fixed-point digits they read. Exponents, hexadecimal floats, `inf`
  and `nan`, which `std::stod` also accepts, are not modelled. Neither is
  the rounding of a double to six decimals.
- LucoNumbers.StodText: has no range check. A decimal whose value is
  above the largest double (a 1 followed by 309 zeros and ".0"), or so
  small that glibc reports an underflow ("0." followed by 400 zeros and
  a 1), makes `std::stod` throw `std::out_of_range`; the model reads its
  digits instead. The members below inherit this.
- LucoNumbers.StodText: keeps every digit it reads, where a double keeps a
  53-bit significand (about 15 to 17 significant decimal digits). For a
  decimal with more digits than that, such as "12345678901234567891.5",
  `std::stod` gives the nearest double (12345678901234567168) and
  `std::to_string` prints its digits, not the decimal's. The model prints
  the decimal's own digits. LucoValue.StringifyParsedDecimal is therefore
  stated only for decimals below 10^9, where the two agree. StodOfDecimal,
  GetType, GetTypeOfDecimal and SetDoubleText keep every digit in the
  same way.
- LucoNumbers.StodOfDecimal: succeeds on decimals outside the double
  range, where `std::stod` throws `std::out_of_range`.
- LucoSimpleTypes.GetType: a float text outside the double range is
  `Ok` with a double, where `get_type` (include/parser.hpp:526) lets the
  `std::out_of_range` of `std::stod` escape.
- LucoSimpleTypes.GetTypeOfDecimal: accepts decimals outside the double
  range, where `std::stod` throws `std::out_of_range`.
- LucoValue.SetDoubleText: accepts decimals outside the double range,
  where `set_state` (include/api.hpp:146-149) throws `std::out_of_range`.
- LucoDocument.Document.Plus: the sum of two numbers is a parameter of the
  model, because floating-point addition is not modelled.
- LucoValue.TryAsNumber: returns the integer or the double it holds, and
  does not model the conversion of an `int64_t` to `double`.
- LucoTree.TryAtIndex: an index past the end makes `std::vector::at`
  throw inside a `noexcept` function, which ends the program. The model
  reports it as `StdException`.
- The `std::any` and `std::initializer_list` constructors and `operator+=`
  of `node`, and the concepts of `include/concepts.hpp`: the model's node
  operations take a `Content` (a value or an existing node) instead.
- Messages: the text of error messages is not modelled; only the error
  type and the location of `error_location` are.
- ANSI colours of the writers are not modelled.
- `dump_data` and reflection are not modelled.
- LucoDump: the writers need a ranking of the nodes (the document is
  acyclic). A document that contains itself makes the C++ writers recurse
  without end, and the model does not cover that.
- LucoParse.Stalled: the C++ rewind loop that never ends is modelled as
  `Diverges` after two repeated rounds. StalledRunsForever proves those
  rounds are a fixed point.
- LucoParse.RunLine and LucoParse.Pass are mutually recursive. Termination
  is by the length of the rest of the chunk and the depth of the
  hierarchy, which a rewinding round must shrink. A rewinding round that
  pops nothing is the stall above.
- LucoScenarios: the malformed texts of `tests/test.cpp` without a terminator have
  their first chunk closed only by their final '}'.
- LucoDocuments.SimpleLuco: of the well-formed documents of
  `tests/test.cpp`, only that of `parsing_simple_luco` is evaluated
  whole. Those of `object_iteration` and `array_iteration`
  (tests/test.cpp:97-182) hold arrays and nested objects over many lines.
  They are covered only by the round and line lemmas of `LucoLines`,
  `LucoEntries` and `LucoNested`, not by a lemma about the whole text.
- `luco::object::find`, the iterator overload of `erase`, and `front` and
  `back` of `luco::array`: these are standard-container pass-throughs,
  not modelled beyond the key and element lookups.
- `mod/luco.cpp`, `include/luco.hpp` and `tests/import_luco` only package
  the headers. `include/expected.hpp` is stood in for by `Result`.
- LucoValue.Stringify: uses the intended trimming of the zeros
  `std::to_string` appends, not the loop of include/api.hpp:564-597 as
  written (see "## Findings"), so a double such as 10 is written "10.0"
  where the source writes "10". The loop as written is
  LucoValue.PopZerosAtTheEndAsWritten.
- LucoValue.StringifyValue: uses the intended trimming of the zeros
  `std::to_string` appends, not the loop of include/api.hpp:564-597 as
  written (see "## Findings"), so a double such as 10 is written "10.0"
  where the source writes "10".
- LucoValue.PopZerosAtTheEnd: the same intended trimming as
  LucoValue.Stringify, so 10 is written "10.0" where the source writes
  "10".
- LucoDump.ValueText: the same intended trimming as LucoValue.Stringify,
  so 10 is written "10.0" where the source writes "10".
- LucoDump.DumpToString: the same intended trimming as
  LucoValue.Stringify, so 10 is written "10.0" where the source writes
  "10".
- LucoDump.NodeStringify: the same intended trimming as
  LucoValue.Stringify, so 10 is written "10.0" where the source writes
  "10".
- LucoDocument.Document.DumpToJson: the same intended trimming as
  LucoValue.Stringify, so 10 is written "10.0" where the source writes
  "10".
- LucoDocument.Document.DumpToLuco: the same intended trimming as
  LucoValue.Stringify, so 10 is written "10.0" where the source writes
  "10".
- LucoDocument.Document.DumpToString: the same intended trimming as
  LucoValue.Stringify, so 10 is written "10.0" where the source writes
  "10".
- LucoDocument.Document.Stringify: the same intended trimming as
  LucoValue.Stringify, so 10 is written "10.0" where the source writes
  "10".
- LucoDocument.DumpValue: the same intended trimming as
  LucoValue.Stringify, so 10 is written "10.0" where the source writes
  "10".
- LucoRecognizers.CloseContainer: uses the corrected close of the second
  row of "## Findings". A '}' that closes the root object, as in
  try_parse("}"), is the parse error of include/parser.hpp:1357-1362,
  where the source reads `hierarchy.top()` of the empty stack, which is
  undefined behaviour (LucoScenarios.ClosingTheRootAsWritten).
- LucoRecognizers.CloseFrame: closes the root object through the corrected
  close of LucoRecognizers.CloseContainer, not the undefined behaviour of
  the source.
- LucoRecognizers.ClosingToken: closes the root object through the
  corrected close of LucoRecognizers.CloseContainer, not the undefined
  behaviour of the source.
- LucoParser.Parser.CloseContainer: closes the root object through the
  corrected close of LucoRecognizers.CloseContainer, not the undefined
  behaviour of the source.
- LucoParser.Parser.CloseFrame: closes the root object through the
  corrected close of LucoRecognizers.CloseContainer, not the undefined
  behaviour of the source.
- LucoParser.Parser.ClosingToken: closes the root object through the
  corrected close of LucoRecognizers.CloseContainer, not the undefined
  behaviour of the source.
- LucoParse.TryParse: through the corrected close, try_parse("}") is the
  parse error at line 1, column 0, where the source has undefined
  behaviour. Its own contract states only that a result is a well-formed
  document rooted at an object; what well-formed texts parse to is stated
  by LucoDocuments.OneEntry, LucoDocuments.SpacedEntry,
  LucoDocuments.SimpleLuco and LucoNested.NestedObject. `try_parse` is
  `noexcept` (include/parser.hpp:1628): an exception of `get_type`, such
  as the `std::out_of_range` of `std::stoll` on
  "a=99999999999999999999\n" or the `std::invalid_argument` of
  `std::stod` on "a = .\n", ends the program through `std::terminate`.
  In the result of TryParse, `Err(StdException)` stands for that
  termination, not for an error returned to the caller.
- LucoParser.TryParse: the same corrected close as LucoParse.TryParse, to
  which it is proved equal. As there, `Err(StdException)` stands for the
  `std::terminate` that an exception escaping the `noexcept` try_parse
  causes (include/parser.hpp:1628).
- Concurrency: the library has none.
- `std::shared_ptr` lifetime: the heap keeps every node ever made.

## Findings

| source | as written | input that shows it | evidently intended | confidence | as-written member | corrected member |
|---|---|---|---|---|---|---|
| include/api.hpp:564-597 | the loop that trims the zeros `std::to_string` appends goes on past the first non-zero digit and past the '.', popping a character whenever it has just seen a zero | the double 10 stringifies as "10" and 1.05 as "1.0" | drop only trailing zeros of the fraction: "10.0" and "1.05" | not executed | LucoValue.TrimmingAsWrittenDropsDigits | LucoValue.StringifyParsedDecimal |
| include/parser.hpp:1384-1399 | closing_bracket::prepare_for_next_token pops the frame and then reads `hierarchy.top()` without checking that a frame is left | try_parse("}") | the "more '}' than '{'" parse error of include/parser.hpp:1357-1362 | not executed | LucoScenarios.ClosingTheRootAsWritten | LucoScenarios.ClosingTheRoot |

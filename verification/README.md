# libvirt network-filter definitions, modelled in Dafny

This project models `LibvirtNWFilterDef`, the class the CloudStack KVM agent uses to
build a libvirt `<filter>` document in memory and render it as flat, unindented XML.
A filter has a name, a uuid, an optional chain, an ordered list of filter references
and an ordered list of rules. A filter reference names another filter and carries
ordered name/value parameters. A rule has an action, a direction, an integer priority
and an ordered list of protocol properties. A property holds optional match fields
(MAC address, IP addresses and masks, port ranges, ICMP type and code) and an ordered
list of connection states.

Every level's `toString()` is a pure `Render*` function returning `string`. The
builders (`addRule`, `addFilterRef`, `addProperty`, `addState`, `addParameter`)
are functional updates that append to a `seq`.

The partner of each renderer is a parser that reads the text back. Its round-trip
lemma says that `Parse(Render(x) + rest)` yields the canonical form of `x` and
leaves `rest`. The canonical form maps blank strings to `""`, non-positive ports
to 0 and negative type/code to -1. This shows that rendering loses exactly what the
gating rules drop. A normalisation-invisibility lemma and an injectivity corollary
complete each level.

The rendering lemmas pin down the output shape: the gating rules, the fixed order of
attributes, and insertion at the end for every `add*`. The cases of the unit test
file are proved as lemmas in module `Scenarios`.

Files:
- `strings.dfy`: `Option`, `Join`/`Split`, the `isNotBlank` test, prefix parsing helpers.
- `decimal.dfy`: Java's decimal formatting of `int`, and its inverse.
- `properties.dfy`: `Rule.Property`.
- `rules.dfy`: `Rule`.
- `filterrefs.dfy`: `FilterRef` and `Parameter`.
- `filters.dfy`: the filter itself.
- `scenarios.dfy`: the test cases.

## Model

| member | source | states |
|---|---|---|
| Properties.ProtocolName | plugins/hypervisors/kvm/src/com/cloud/hypervisor/kvm/resource/LibvirtNWFilterDef.java:166-181 | The sixteen protocol strings (`mac` ... `all-ipv6`); each is non-empty, has no space and no leading `/`, and with `ProtocolNameRoundTrip` no two protocols share a string |
| Properties.StateName | plugins/hypervisors/kvm/src/com/cloud/hypervisor/kvm/resource/LibvirtNWFilterDef.java:183-196 | The five state strings; none holds a comma or a quote, so a comma-joined list stays inside its quoted attribute |
| Properties.KeyName | plugins/hypervisors/kvm/src/com/cloud/hypervisor/kvm/resource/LibvirtNWFilterDef.java:270-315 | The twelve attribute names; each is non-empty, has no `=` and no leading `/` |
| Properties.NewProperty | plugins/hypervisors/kvm/src/com/cloud/hypervisor/kvm/resource/LibvirtNWFilterDef.java:198-214 | A new property has only its protocol set: empty strings, no addresses, ports 0, type and code -1, no states |
| Properties.AddState | plugins/hypervisors/kvm/src/com/cloud/hypervisor/kvm/resource/LibvirtNWFilterDef.java:260-262 | `addState` grows the state list by exactly that state at its end and changes nothing else. Its effect on the text is `AddStateRendering` |
| Properties.Gate | plugins/hypervisors/kvm/src/com/cloud/hypervisor/kvm/resource/LibvirtNWFilterDef.java:270-315 | The gating rule of each attribute. A port, `type` or `code` value that is emitted is always a non-empty string of digits, so no negative number is ever written. An emitted port never starts with `0`, so a zero port is never written either |
| Properties.RenderProperty | plugins/hypervisors/kvm/src/com/cloud/hypervisor/kvm/resource/LibvirtNWFilterDef.java:264-319 | The element always starts with `<`, the protocol string and a space, and always ends with `/>` and a newline. What lies between is fixed by `Attributes` |
| Properties.ProtocolNameRoundTrip | plugins/hypervisors/kvm/src/com/cloud/hypervisor/kvm/resource/LibvirtNWFilterDef.java:166-181 | Each protocol's string is non-empty, has no space and no leading `/`, and names that protocol alone: reading it back gives the protocol |
| Properties.StateNameRoundTrip | plugins/hypervisors/kvm/src/com/cloud/hypervisor/kvm/resource/LibvirtNWFilterDef.java:183-196 | Each state's string (`NONE`, `NEW`, ...) holds no comma or quote and reads back as that state |
| Properties.StateListRoundTrip | plugins/hypervisors/kvm/src/com/cloud/hypervisor/kvm/resource/LibvirtNWFilterDef.java:313-314 | A list of states, written as names, reads back as the same list in the same order |
| Properties.JoinedStatesAvoid | plugins/hypervisors/kvm/src/com/cloud/hypervisor/kvm/resource/LibvirtNWFilterDef.java:314 | The comma-joined state list contains no character other than the comma that is absent from every state name, in particular no quote |
| Properties.KeyNameRoundTrip | plugins/hypervisors/kvm/src/com/cloud/hypervisor/kvm/resource/LibvirtNWFilterDef.java:270-315 | Each of the twelve attribute names (`srcmacaddr` ... `state`) reads back as its key |
| Properties.Collect | plugins/hypervisors/kvm/src/com/cloud/hypervisor/kvm/resource/LibvirtNWFilterDef.java:270-315 | Every attribute collected for a list of keys belongs to that list, and its gate is open with exactly that value |
| Properties.CollectLookup | plugins/hypervisors/kvm/src/com/cloud/hypervisor/kvm/resource/LibvirtNWFilterDef.java:270-315 | Looking a key up in the collected attributes gives that key's gated value when the key is in the list, and nothing otherwise |
| Properties.CollectInOrder | plugins/hypervisors/kvm/src/com/cloud/hypervisor/kvm/resource/LibvirtNWFilterDef.java:270-315 | Keys examined in emission order yield attributes in emission order |
| Properties.EmissionOrderRanks | plugins/hypervisors/kvm/src/com/cloud/hypervisor/kvm/resource/LibvirtNWFilterDef.java:270-315 | The emission order lists twelve keys, and the i-th key has rank i: srcmacaddr, srcipaddr, srcipmask, dstipaddr, dstipmask, srcportstart, srcportend, dstportstart, dstportend, type, code, state |
| Properties.EveryKeyEmittable | plugins/hypervisors/kvm/src/com/cloud/hypervisor/kvm/resource/LibvirtNWFilterDef.java:270-315 | Every attribute key is examined by `toString()` |
| Properties.Attributes | plugins/hypervisors/kvm/src/com/cloud/hypervisor/kvm/resource/LibvirtNWFilterDef.java:270-315 | The emitted attributes are exactly those whose gate is open: non-blank mac and masks, present addresses, ports > 0, type/code >= 0, a non-empty state list. Each carries its gated value, and they follow the fixed emission order |
| Properties.InKeyOrderUnique | plugins/hypervisors/kvm/src/com/cloud/hypervisor/kvm/resource/LibvirtNWFilterDef.java:270-315 | Two attribute lists in emission order with the same lookups are equal |
| Properties.AttributesUnique | plugins/hypervisors/kvm/src/com/cloud/hypervisor/kvm/resource/LibvirtNWFilterDef.java:270-315 | The emitted attribute list is the only ordered list with the gating lookups, so gating and order fix the output completely |
| Properties.NormalizeKeepsGate | plugins/hypervisors/kvm/src/com/cloud/hypervisor/kvm/resource/LibvirtNWFilterDef.java:270-315 | Normalising a property opens and closes every gate the same way, with the same text |
| Properties.NormalizeInvisible | plugins/hypervisors/kvm/src/com/cloud/hypervisor/kvm/resource/LibvirtNWFilterDef.java:264-319 | A property and its canonical form have the same attributes and the same rendering |
| Properties.NormalizeIdempotent | plugins/hypervisors/kvm/src/com/cloud/hypervisor/kvm/resource/LibvirtNWFilterDef.java:264-319 | Normalising twice is the same as normalising once |
| Properties.BareIffAllClosed | plugins/hypervisors/kvm/src/com/cloud/hypervisor/kvm/resource/LibvirtNWFilterDef.java:270-315 | A property has none of the source's set conditions (blank strings, no addresses, ports at most 0, negative type and code, no states) if and only if every gate is closed |
| Properties.BareIffNoAttributes | plugins/hypervisors/kvm/src/com/cloud/hypervisor/kvm/resource/LibvirtNWFilterDef.java:270-315 | A property emits no attribute if and only if all its gates are closed |
| Properties.BarePropertyRendering | plugins/hypervisors/kvm/src/com/cloud/hypervisor/kvm/resource/LibvirtNWFilterDef.java:264-319 | A property renders as `<proto />` followed by a newline if and only if none of its gates is open |
| Properties.NewPropertyRendering | plugins/hypervisors/kvm/src/com/cloud/hypervisor/kvm/resource/LibvirtNWFilterDef.java:204-214 | A fresh property, with ports 0 and type/code -1, renders as `<proto />` followed by a newline |
| Properties.StateAttributeLast | plugins/hypervisors/kvm/src/com/cloud/hypervisor/kvm/resource/LibvirtNWFilterDef.java:313-317 | The `state` attribute, when present, is the last thing before `/>` |
| Properties.AddStateKeepsLeading | plugins/hypervisors/kvm/src/com/cloud/hypervisor/kvm/resource/LibvirtNWFilterDef.java:260-262 | `addState` leaves every attribute before `state` unchanged |
| Properties.AddStateRendering | plugins/hypervisors/kvm/src/com/cloud/hypervisor/kvm/resource/LibvirtNWFilterDef.java:260-317 | `addState` changes only the `state` attribute. The first state inserts `state='S' ` before `/>`; a later one inserts `,S` before the closing quote |
| Properties.ParseAttributesRoundTrip | plugins/hypervisors/kvm/src/com/cloud/hypervisor/kvm/resource/LibvirtNWFilterDef.java:270-317 | Quote-free attributes, rendered as `key='value' ` in sequence, read back as the same list, stopping at `/>` |
| Properties.FromAttributesRoundTrip | plugins/hypervisors/kvm/src/com/cloud/hypervisor/kvm/resource/LibvirtNWFilterDef.java:270-315 | Rebuilding a property from its emitted attributes gives its canonical form |
| Properties.ParsePropertyRoundTrip | plugins/hypervisors/kvm/src/com/cloud/hypervisor/kvm/resource/LibvirtNWFilterDef.java:264-319 | A well-formed property's element, followed by any text, reads back as the canonical property and leaves the text |
| Properties.RenderPropertyInjective | plugins/hypervisors/kvm/src/com/cloud/hypervisor/kvm/resource/LibvirtNWFilterDef.java:264-319 | Two well-formed properties render the same text if and only if their canonical forms are equal |
| Rules.ActionName | plugins/hypervisors/kvm/src/com/cloud/hypervisor/kvm/resource/LibvirtNWFilterDef.java:101-113 | The four action strings; each is non-empty and holds no quote |
| Rules.DirectionName | plugins/hypervisors/kvm/src/com/cloud/hypervisor/kvm/resource/LibvirtNWFilterDef.java:115-127 | The three direction strings; each is non-empty and holds no quote |
| Rules.NewRule | plugins/hypervisors/kvm/src/com/cloud/hypervisor/kvm/resource/LibvirtNWFilterDef.java:134-137 | The two-argument constructor leaves the priority at 0 and the property list empty |
| Rules.NewRuleWithPriority | plugins/hypervisors/kvm/src/com/cloud/hypervisor/kvm/resource/LibvirtNWFilterDef.java:139-143 | The three-argument constructor sets the given priority, with no properties |
| Rules.AddProperty | plugins/hypervisors/kvm/src/com/cloud/hypervisor/kvm/resource/LibvirtNWFilterDef.java:145-147 | `addProperty` grows the property list by exactly that property at its end and changes nothing else. Its effect on the text is `AddPropertyRendering` |
| Rules.RenderRule | plugins/hypervisors/kvm/src/com/cloud/hypervisor/kvm/resource/LibvirtNWFilterDef.java:149-163 | The element always starts with the opening tag and always ends with `</rule>` and a newline |
| Rules.ActionNameRoundTrip | plugins/hypervisors/kvm/src/com/cloud/hypervisor/kvm/resource/LibvirtNWFilterDef.java:101-113 | Each action's string reads back as that action |
| Rules.DirectionNameRoundTrip | plugins/hypervisors/kvm/src/com/cloud/hypervisor/kvm/resource/LibvirtNWFilterDef.java:115-127 | Each direction's string reads back as that direction |
| Rules.PriorityAttribute | plugins/hypervisors/kvm/src/com/cloud/hypervisor/kvm/resource/LibvirtNWFilterDef.java:152-156 | The opening tag ends right after the direction if and only if the priority is 0, and carries `priority='n'` if and only if it is not 0 |
| Rules.NewRuleRendering | plugins/hypervisors/kvm/src/com/cloud/hypervisor/kvm/resource/LibvirtNWFilterDef.java:134-163 | A rule from the two-argument constructor renders as an opening tag without priority, then `</rule>` |
| Rules.NewRuleWithPriorityRendering | plugins/hypervisors/kvm/src/com/cloud/hypervisor/kvm/resource/LibvirtNWFilterDef.java:139-163 | A rule from the three-argument constructor shows its priority unless the priority is 0 |
| Rules.AddPropertyRendering | plugins/hypervisors/kvm/src/com/cloud/hypervisor/kvm/resource/LibvirtNWFilterDef.java:145-161 | `addProperty` inserts exactly the property's element before `</rule>` and leaves every earlier character unchanged |
| Rules.NormalizeAllInvisible | plugins/hypervisors/kvm/src/com/cloud/hypervisor/kvm/resource/LibvirtNWFilterDef.java:158-160 | Normalising every property leaves the concatenated property elements unchanged |
| Rules.NormalizeRuleInvisible | plugins/hypervisors/kvm/src/com/cloud/hypervisor/kvm/resource/LibvirtNWFilterDef.java:149-163 | A rule and its canonical form render the same text |
| Rules.TagEndRoundTrip | plugins/hypervisors/kvm/src/com/cloud/hypervisor/kvm/resource/LibvirtNWFilterDef.java:152-156 | The end of the opening tag, with or without a priority, reads back as the priority |
| Rules.ParseRuleOpenTagRoundTrip | plugins/hypervisors/kvm/src/com/cloud/hypervisor/kvm/resource/LibvirtNWFilterDef.java:152-156 | A rule's opening tag reads back as its action, direction and priority |
| Rules.ParsePropertiesRoundTrip | plugins/hypervisors/kvm/src/com/cloud/hypervisor/kvm/resource/LibvirtNWFilterDef.java:158-161 | Well-formed properties in sequence read back as their canonical forms, in order, stopping at `</rule>` |
| Rules.ParseRuleRoundTrip | plugins/hypervisors/kvm/src/com/cloud/hypervisor/kvm/resource/LibvirtNWFilterDef.java:149-163 | A well-formed rule's element, followed by any text, reads back as the canonical rule and leaves the text |
| Rules.RenderRuleInjective | plugins/hypervisors/kvm/src/com/cloud/hypervisor/kvm/resource/LibvirtNWFilterDef.java:149-163 | Two well-formed rules render the same text if and only if their canonical forms are equal |
| FilterRefs.RenderParameter | plugins/hypervisors/kvm/src/com/cloud/hypervisor/kvm/resource/LibvirtNWFilterDef.java:333-336 | The element starts with `<parameter name='` and ends with `'/>` and a newline. Its length is that of the name and value plus the 30 characters of fixed markup (where the two sit is stated by `FilterRefs.RenderParameterLayout`) |
| FilterRefs.NewFilterRef | plugins/hypervisors/kvm/src/com/cloud/hypervisor/kvm/resource/LibvirtNWFilterDef.java:342-344 | The constructor names the filter, with no parameters |
| FilterRefs.AddParameter | plugins/hypervisors/kvm/src/com/cloud/hypervisor/kvm/resource/LibvirtNWFilterDef.java:350-352 | `addParameter` grows the parameter list by exactly that parameter at its end and keeps the filter name. Its effect on the text is `AddParameterRendering` |
| FilterRefs.RenderFilterRef | plugins/hypervisors/kvm/src/com/cloud/hypervisor/kvm/resource/LibvirtNWFilterDef.java:354-364 | The element always starts with `<filterref filter='F'>` and a newline, and always ends with `</filterref>` and a newline |
| FilterRefs.NewFilterRefRendering | plugins/hypervisors/kvm/src/com/cloud/hypervisor/kvm/resource/LibvirtNWFilterDef.java:342-364 | A fresh reference renders as `<filterref filter='F'>` and `</filterref>` with nothing between |
| FilterRefs.AddParameterRendering | plugins/hypervisors/kvm/src/com/cloud/hypervisor/kvm/resource/LibvirtNWFilterDef.java:350-364 | `addParameter` inserts exactly the parameter's element before `</filterref>`; nothing else changes |
| FilterRefs.QuoteMakesParametersAmbiguous | plugins/hypervisors/kvm/src/com/cloud/hypervisor/kvm/resource/LibvirtNWFilterDef.java:333-336 | Because nothing is escaped, two different parameters can render the same text, so the round trip needs quote-free values |
| FilterRefs.RenderParameterLayout | plugins/hypervisors/kvm/src/com/cloud/hypervisor/kvm/resource/LibvirtNWFilterDef.java:333-336 | The name appears verbatim from offset 17, then `' value='`, then the value verbatim, so the element carries both exactly as given |
| FilterRefs.ParseParameterRoundTrip | plugins/hypervisors/kvm/src/com/cloud/hypervisor/kvm/resource/LibvirtNWFilterDef.java:333-336 | A quote-free parameter's element reads back as the same parameter |
| FilterRefs.ParseParametersRoundTrip | plugins/hypervisors/kvm/src/com/cloud/hypervisor/kvm/resource/LibvirtNWFilterDef.java:359-361 | Quote-free parameters in sequence read back as the same list, stopping at `</filterref>` |
| FilterRefs.ParseFilterRefRoundTrip | plugins/hypervisors/kvm/src/com/cloud/hypervisor/kvm/resource/LibvirtNWFilterDef.java:354-364 | A well-formed reference's element, followed by any text, reads back exactly and leaves the text |
| FilterRefs.RenderFilterRefInjective | plugins/hypervisors/kvm/src/com/cloud/hypervisor/kvm/resource/LibvirtNWFilterDef.java:354-364 | Two well-formed references render the same text if and only if they are equal |
| Filters.ChainName | plugins/hypervisors/kvm/src/com/cloud/hypervisor/kvm/resource/LibvirtNWFilterDef.java:26-38 | The eight chain strings; each is non-empty and holds no quote |
| Filters.NewFilter | plugins/hypervisors/kvm/src/com/cloud/hypervisor/kvm/resource/LibvirtNWFilterDef.java:46-49 | The two-argument constructor sets name and uuid, with no chain, no references and no rules |
| Filters.NewFilterWithChain | plugins/hypervisors/kvm/src/com/cloud/hypervisor/kvm/resource/LibvirtNWFilterDef.java:51-55 | The three-argument constructor also sets the chain |
| Filters.AddRule | plugins/hypervisors/kvm/src/com/cloud/hypervisor/kvm/resource/LibvirtNWFilterDef.java:69-71 | `addRule` grows the rule list by exactly that rule at its end and changes nothing else. Its effect on the text is `AddRuleRendering` |
| Filters.AddFilterRef | plugins/hypervisors/kvm/src/com/cloud/hypervisor/kvm/resource/LibvirtNWFilterDef.java:73-75 | `addFilterRef` grows the reference list by exactly that reference at its end and changes nothing else. Its effect on the text is `AddFilterRefRendering` |
| Filters.RenderFilter | plugins/hypervisors/kvm/src/com/cloud/hypervisor/kvm/resource/LibvirtNWFilterDef.java:77-98 | The document always starts with the opening tag followed by the `<uuid>U</uuid>` line, and always ends with `</filter>` and a newline |
| Filters.ChainNameRoundTrip | plugins/hypervisors/kvm/src/com/cloud/hypervisor/kvm/resource/LibvirtNWFilterDef.java:26-38 | Each chain's string reads back as that chain |
| Filters.ChainAttribute | plugins/hypervisors/kvm/src/com/cloud/hypervisor/kvm/resource/LibvirtNWFilterDef.java:80-84 | The opening tag ends right after the name if and only if no chain is set. It carries `chain='c'`, after `name`, if and only if a chain is set |
| Filters.OpenTagStartsFilter | plugins/hypervisors/kvm/src/com/cloud/hypervisor/kvm/resource/LibvirtNWFilterDef.java:80-84 | The document starts with the filter's opening tag |
| Filters.NewFilterRendering | plugins/hypervisors/kvm/src/com/cloud/hypervisor/kvm/resource/LibvirtNWFilterDef.java:77-98 | A filter built without a chain renders as `<filter name='N'>`, `<uuid>U</uuid>` and `</filter>`, one per line |
| Filters.NewFilterWithChainRendering | plugins/hypervisors/kvm/src/com/cloud/hypervisor/kvm/resource/LibvirtNWFilterDef.java:77-98 | A filter built with a chain renders the same, with `chain='C'` in the opening tag |
| Filters.AddRuleRendering | plugins/hypervisors/kvm/src/com/cloud/hypervisor/kvm/resource/LibvirtNWFilterDef.java:69-96 | `addRule` inserts exactly the rule's element before `</filter>` and leaves every earlier character unchanged |
| Filters.AddFilterRefRendering | plugins/hypervisors/kvm/src/com/cloud/hypervisor/kvm/resource/LibvirtNWFilterDef.java:73-96 | `addFilterRef` inserts exactly the reference's element after the existing references and before all rules; the text around it is unchanged |
| Filters.NormalizeRulesInvisible | plugins/hypervisors/kvm/src/com/cloud/hypervisor/kvm/resource/LibvirtNWFilterDef.java:92-94 | Normalising every rule leaves the concatenated rule elements unchanged |
| Filters.NormalizeFilterInvisible | plugins/hypervisors/kvm/src/com/cloud/hypervisor/kvm/resource/LibvirtNWFilterDef.java:77-98 | A filter and its canonical form render the same text |
| Filters.ChainEndRoundTrip | plugins/hypervisors/kvm/src/com/cloud/hypervisor/kvm/resource/LibvirtNWFilterDef.java:80-84 | The end of the opening tag reads back as the chain, or as no chain |
| Filters.ParseFilterOpenTagRoundTrip | plugins/hypervisors/kvm/src/com/cloud/hypervisor/kvm/resource/LibvirtNWFilterDef.java:80-84 | An opening tag with a quote-free name reads back as the name and the chain |
| Filters.UuidRoundTrip | plugins/hypervisors/kvm/src/com/cloud/hypervisor/kvm/resource/LibvirtNWFilterDef.java:86 | The uuid line reads back as the uuid when the uuid contains no `<` |
| Filters.ParseFilterRefsRoundTrip | plugins/hypervisors/kvm/src/com/cloud/hypervisor/kvm/resource/LibvirtNWFilterDef.java:88-90 | Well-formed references in sequence read back as the same list, in order |
| Filters.ParseRulesRoundTrip | plugins/hypervisors/kvm/src/com/cloud/hypervisor/kvm/resource/LibvirtNWFilterDef.java:92-96 | Well-formed rules in sequence read back as their canonical forms, in order, stopping at `</filter>` |
| Filters.ParseFilterRoundTrip | plugins/hypervisors/kvm/src/com/cloud/hypervisor/kvm/resource/LibvirtNWFilterDef.java:77-98 | A well-formed filter's document, followed by any text, reads back as the canonical filter and leaves the text |
| Filters.RenderFilterInjective | plugins/hypervisors/kvm/src/com/cloud/hypervisor/kvm/resource/LibvirtNWFilterDef.java:77-98 | Two well-formed filters render the same text if and only if their canonical forms are equal |
| Decimal.NatToString | plugins/hypervisors/kvm/src/com/cloud/hypervisor/kvm/resource/LibvirtNWFilterDef.java:155 | The decimal text of a natural number is non-empty, all digits, with no leading zero, and starts with `0` only for zero |
| Decimal.IntToString | plugins/hypervisors/kvm/src/com/cloud/hypervisor/kvm/resource/LibvirtNWFilterDef.java:155 | The decimal text of an integer starts with `-` if and only if the integer is negative, and is otherwise all digits. It starts with `0` if and only if the integer is zero |
| Decimal.NatToStringValue | plugins/hypervisors/kvm/src/com/cloud/hypervisor/kvm/resource/LibvirtNWFilterDef.java:155 | The digits of a natural number's text have that number as their value |
| Decimal.IntToStringRoundTrip | plugins/hypervisors/kvm/src/com/cloud/hypervisor/kvm/resource/LibvirtNWFilterDef.java:155 | Reading an integer's decimal text gives the integer back |
| Decimal.IntToStringInjective | plugins/hypervisors/kvm/src/com/cloud/hypervisor/kvm/resource/LibvirtNWFilterDef.java:155 | Two integers have the same decimal text if and only if they are equal |
| Strings.ConcatAppend | plugins/hypervisors/kvm/src/com/cloud/hypervisor/kvm/resource/LibvirtNWFilterDef.java:88-94 | Rendering a list built by appending is rendering each part in turn |
| Strings.JoinAppend | plugins/hypervisors/kvm/src/com/cloud/hypervisor/kvm/resource/LibvirtNWFilterDef.java:314 | Joining a list with one more item appends the separator and the item, or gives the item alone for an empty list |
| Strings.SplitJoin | plugins/hypervisors/kvm/src/com/cloud/hypervisor/kvm/resource/LibvirtNWFilterDef.java:314 | Splitting a separator-joined list of separator-free items gives the list back |
| Strings.JoinSplit | plugins/hypervisors/kvm/src/com/cloud/hypervisor/kvm/resource/LibvirtNWFilterDef.java:314 | Joining the pieces of a split gives the text back |
| Scenarios.ConstructScenario | plugins/hypervisors/kvm/test/com/cloud/hypervisor/kvm/resource/LibvirtNWFilterDefTest.java:37-46 | A filter built with name and uuid renders as the test expects |
| Scenarios.ConstructWithChainScenario | plugins/hypervisors/kvm/test/com/cloud/hypervisor/kvm/resource/LibvirtNWFilterDefTest.java:48-60 | A filter built with the `root` chain renders as the test expects |
| Scenarios.EmptyRuleScenario | plugins/hypervisors/kvm/test/com/cloud/hypervisor/kvm/resource/LibvirtNWFilterDefTest.java:62-76 | A filter with one rule built without a priority renders as the test expects |
| Scenarios.EmptyRuleWithPriorityScenario | plugins/hypervisors/kvm/test/com/cloud/hypervisor/kvm/resource/LibvirtNWFilterDefTest.java:78-93 | A filter with one rule of priority 100 renders as the test expects |
| Scenarios.RulesWithPropertiesScenario | plugins/hypervisors/kvm/test/com/cloud/hypervisor/kvm/resource/LibvirtNWFilterDefTest.java:95-119 | A rule with an `ip` property with `dstportstart=22` renders inside the filter as the test expects |
| Scenarios.StatefulProperty | plugins/hypervisors/kvm/test/com/cloud/hypervisor/kvm/resource/LibvirtNWFilterDefTest.java:132-170 | A tcp property with port 22 and states NEW then ESTABLISHED renders as `<tcp dstportstart='22' state='NEW,ESTABLISHED' />` |
| Scenarios.PortRangeProperty | plugins/hypervisors/kvm/test/com/cloud/hypervisor/kvm/resource/LibvirtNWFilterDefTest.java:144-176 | A tcp property with ports 20 to 21 renders both port attributes, start first |
| Scenarios.ManyRulesScenario | plugins/hypervisors/kvm/test/com/cloud/hypervisor/kvm/resource/LibvirtNWFilterDefTest.java:121-181 | The five-rule filter with the `ipv4` chain and the `allow-dhcp` reference renders exactly the test's text |
| Scenarios.IcmpScenario | plugins/hypervisors/kvm/test/com/cloud/hypervisor/kvm/resource/LibvirtNWFilterDefTest.java:183-200 | An icmp rule renders as `<icmp />`, and with code 0 and type 8 set renders `type='8' code='0'` in that order |
| Scenarios.TcpScenario | plugins/hypervisors/kvm/test/com/cloud/hypervisor/kvm/resource/LibvirtNWFilterDefTest.java:202-212 | A tcp rule with destination port 22 and priority 500 renders as the test expects |
| Scenarios.UdpScenario | plugins/hypervisors/kvm/test/com/cloud/hypervisor/kvm/resource/LibvirtNWFilterDefTest.java:214-225 | A udp rule with source address 8.8.8.8 and destination port 53 renders the address before the port |
| Scenarios.FilterRefScenario | plugins/hypervisors/kvm/test/com/cloud/hypervisor/kvm/resource/LibvirtNWFilterDefTest.java:227-235 | A bare reference, and a reference with parameter `IP=192.168.1.100`, render as the test expects |

## Left out

- `isNotBlank` and `join` come from `com.cloud.utils.StringUtils`, which is not part of this model. `isNotBlank` is taken as "some character is above U+0020", matching `String.trim`. `join` is a plain separator join of the state names.
- `java.net.InetAddress` is not modelled. An address is the text `getHostAddress()` would return (`InetAddress.hostAddress`), so name resolution and formatting are out of scope.
- Java `null` is not modelled as such. An unset MAC address or mask is the empty string; unset addresses and the chain are `None`. Printing a null name or uuid as `"null"` is left out: names, uuids, filters and parameters are plain strings.
- Java's 32-bit `int` is an unbounded `int`; overflow cannot occur in `toString()`, which only formats the numbers.
- The getters and setters are record updates (`WithDstPortStart` in the test cases). Object identity and aliasing of the mutable builders are left out.
- No XML escaping is added, since the source does none. The round-trip and injectivity lemmas therefore require quote-free strings (`WellFormed*`), and a uuid without `<`. `FilterRefs.QuoteMakesParametersAmbiguous` shows the requirement is needed.
- Filters.ParseFilterRoundTrip: the parsers read the text the renderers produce, not arbitrary libvirt XML. Text such as `priority='0'` reads as priority 0, although the renderer never writes it.
- The test cases state their expected text as concatenations of the renderer's pieces, grouped per element and attribute. That these pieces concatenate to the test file's string literals is checked by reading and not proved, because the verifier does not decide equality between long literals and concatenations in reasonable time.

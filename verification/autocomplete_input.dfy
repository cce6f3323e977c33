/**
 * The `AutocompleteInput` component as an object: its props and its six
 * pieces of state are fields, each handler updates them in place, and every
 * handler that changes state ends by running the two effects. The parent's
 * callbacks are appended to `log`. Each method is proved to do what the event
 * function of the same name in AutocompleteSpec says.
 */
module Autocomplete {
  import opened Wrappers
  import opened Suggestions
  import opened AutocompleteSpec

  class AutocompleteInput {
    // props
    var suggestions: seq<Suggestion>
    var value: Option<Value>
    const hasOnChange: bool
    const hasOnSelect: bool

    // state
    var inputValue: string
    var selectedValue: Option<Value>
    var filteredSuggestions: seq<string>
    var showSuggestions: bool
    var activeSuggestionIndex: int
    var isUserTyping: bool

    // calls made to the parent's onChange and onSelect, oldest first
    var log: seq<Callback>

    /** The object's state as a value. */
    ghost function Model(): Widget
      reads this
    {
      Widget(suggestions, value, hasOnChange, hasOnSelect,
             inputValue, selectedValue, filteredSuggestions,
             showSuggestions, activeSuggestionIndex, isUserTyping, log)
    }

    ghost predicate Valid()
      reads this
    {
      AutocompleteSpec.Valid(Model())
    }

    /** First render: empty text, `selectedValue` initialised from the `value` prop. */
    constructor (ss: seq<Suggestion>, v: Option<Value>, withOnChange: bool, withOnSelect: bool)
      ensures Model() == Mount(ss, v, withOnChange, withOnSelect)
      ensures Valid()
    {
      suggestions, value := ss, v;
      hasOnChange, hasOnSelect := withOnChange, withOnSelect;
      inputValue := "";
      selectedValue := v;
      filteredSuggestions := [];
      showSuggestions := false;
      activeSuggestionIndex := -1;
      isUserTyping := false;
      log := [];
    }

    /** The filter effect's dependencies as they stand. */
    function CurrentDeps(): (d: Deps)
      reads this
      ensures d == DepsOf(Model())
    {
      Deps(inputValue, suggestions, isUserTyping)
    }

    /**
     * The effects after a handler: first the value sync, then the filter,
     * if its dependencies differ from `prev`, those of its last run.
     */
    method RunEffects(prev: Deps)
      modifies this
      ensures Model() == Settle(prev, old(Model()))
    {
      var afterHandler := CurrentDeps();
      if !isUserTyping && value != selectedValue {
        var found := FindByChange(suggestions, value);
        selectedValue := value;
        inputValue := CaptionOrBlank(found);
      }
      if prev != afterHandler || afterHandler != CurrentDeps() {
        if inputValue != "" && isUserTyping {
          filteredSuggestions := FilterLabels(Labels(suggestions), inputValue);
          showSuggestions := |filteredSuggestions| > 0;
          activeSuggestionIndex := -1;
        } else {
          filteredSuggestions := [];
          showSuggestions := false;
        }
      }
    }

    /** The parent renders again with these props. */
    method ReceiveProps(newValue: Option<Value>, newSuggestions: seq<Suggestion>)
      requires Valid()
      modifies this
      ensures Model() == Rerender(old(Model()), newValue, newSuggestions)
      ensures Valid()
    {
      RerenderValid(Model(), newValue, newSuggestions);
      var prev := CurrentDeps();
      value := newValue;
      suggestions := newSuggestions;
      RunEffects(prev);
    }

    /**
     * `handleInputChange`. `parentValue` is the `value` prop the parent
     * renders with after `onChange("")`.
     */
    method HandleInputChange(newLabel: string, parentValue: Option<Value>)
      requires Valid()
      modifies this
      ensures Model() == InputChange(old(Model()), newLabel, parentValue)
      ensures Valid()
    {
      InputChangeValid(Model(), newLabel, parentValue);
      ghost var before := Model();
      var prev := CurrentDeps();
      inputValue := newLabel;
      isUserTyping := true;
      selectedValue := None;
      if hasOnChange {
        log := log + [OnChange(Text(""))];
        value := parentValue;
      }
      assert Model() == Emit(Typed(before, newLabel), TypingCalls(before), parentValue);
      RunEffects(prev);
    }

    /** The field's `onFocus`. */
    method HandleFocus()
      requires Valid()
      modifies this
      ensures Model() == Focus(old(Model()))
      ensures Valid()
    {
      FocusValid(Model());
      var prev := CurrentDeps();
      isUserTyping := true;
      RunEffects(prev);
    }

    /**
     * `handleSuggestionClick`. `parentValue` is the `value` prop the parent
     * renders with after the callbacks, if any was made.
     */
    method HandleSuggestionClick(caption: string, parentValue: Option<Value>)
      requires Valid()
      modifies this
      ensures Model() == SuggestionClick(old(Model()), caption, parentValue)
      ensures Valid()
    {
      ClickValid(Model(), caption, parentValue);
      var selected := FindByLabel(suggestions, caption);
      if selected.None? {
        return;
      }
      SelectSuggestion(selected.value, parentValue);
    }

    /** The body of `handleSuggestionClick` once the suggestion `s` is found. */
    method SelectSuggestion(s: Suggestion, parentValue: Option<Value>)
      modifies this
      ensures Model() == Select(old(Model()), s, parentValue)
    {
      ghost var before := Model();
      var prev := CurrentDeps();
      inputValue := s.caption;
      selectedValue := Some(s.change);
      showSuggestions := false;
      activeSuggestionIndex := -1;
      isUserTyping := false;
      var calls: seq<Callback> := [];
      if hasOnChange {
        calls := calls + [OnChange(s.change)];
      }
      if hasOnSelect {
        calls := calls + [OnSelect(s.caption)];
      }
      assert calls == SelectionCalls(before, s);
      log := log + calls;
      if calls != [] {
        value := parentValue;
      }
      assert Model() == Emit(Picked(before, s), calls, parentValue);
      RunEffects(prev);
    }

    /** `handleKeyDown`. `parentValue` matters only when Enter selects. */
    method HandleKeyDown(key: Key, parentValue: Option<Value>)
      requires Valid()
      modifies this
      ensures Model() == KeyDown(old(Model()), key, parentValue)
      ensures Valid()
    {
      KeyDownValid(Model(), key, parentValue);
      if !showSuggestions {
        return;
      }
      var prev := CurrentDeps();
      match key
      case ArrowDown =>
        activeSuggestionIndex :=
          if activeSuggestionIndex < |filteredSuggestions| - 1 then activeSuggestionIndex + 1
          else activeSuggestionIndex;
        RunEffects(prev);
      case ArrowUp =>
        activeSuggestionIndex := if activeSuggestionIndex > 0 then activeSuggestionIndex - 1 else -1;
        RunEffects(prev);
      case Enter =>
        if 0 <= activeSuggestionIndex < |filteredSuggestions| {
          HandleSuggestionClick(filteredSuggestions[activeSuggestionIndex], parentValue);
        }
      case Escape =>
        showSuggestions := false;
        activeSuggestionIndex := -1;
        RunEffects(prev);
      case OtherKey(_) =>
    }

    /** `handleMouseEnterSuggestion`, fired by the rendered item at `index`. */
    method HandleMouseEnterSuggestion(index: nat)
      requires Valid() && showSuggestions && index < |filteredSuggestions|
      modifies this
      ensures Model() == MouseEnter(old(Model()), index)
      ensures Valid()
    {
      MouseEnterValid(Model(), index);
      var prev := CurrentDeps();
      activeSuggestionIndex := index;
      RunEffects(prev);
    }

    /**
     * The document's `mousedown` listener; `outside` says whether the target
     * lies outside both the field and the dropdown.
     */
    method HandleClickOutside(outside: bool)
      requires Valid()
      modifies this
      ensures Model() == ClickOutside(old(Model()), outside)
      ensures Valid()
    {
      ClickOutsideValid(Model(), outside);
      var dropdownRendered := showSuggestions && |filteredSuggestions| > 0;
      if dropdownRendered && outside {
        var prev := CurrentDeps();
        showSuggestions := false;
        activeSuggestionIndex := -1;
        RunEffects(prev);
      }
    }
  }
}

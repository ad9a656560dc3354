/**
 * `GMBConnect\Shortcodes\Shortcode`: the base constructor every shortcode
 * runs. It refuses a subclass that does not declare its tag name or its
 * allowed attributes, and otherwise registers the subclass's `execute` as
 * the handler of its tag.
 */
module Shortcodes {
  import opened Common
  import opened Text

  /** WordPress's shortcode table as `add_shortcode` fills it: each tag and
      the class whose `execute` handles it. */
  class ShortcodeRegistry {
    var handlers: map<string, string>

    constructor ()
      ensures handlers == map[]
    {
      handlers := map[];
    }

    /** `add_shortcode`: a later registration of a tag replaces an earlier one. */
    method AddShortcode(tag: string, handler: string)
      modifies this
      ensures handlers == old(handlers)[tag := handler]
    {
      handlers := handlers[tag := handler];
    }
  }

  /** The `LogicException` message for a missing property. */
  function MissingProperty(className: string, property: string): string
  {
    className + " must have the " + property + " property and it must be accessible."
  }

  /** The exception `__construct` throws, if any: a missing `$tag_name` is
      reported even when `$allowed_atts` is missing too. */
  function ConstructionError(className: string, tagName: Option<string>, allowedAtts: Option<map<string, Value>>)
    : (r: Option<string>)
    ensures r.None? <==> tagName.Some? && allowedAtts.Some?
    ensures r.Some? ==> HasPrefix(r.value, className + " must have the ")
    ensures r.Some? ==> Contains(r.value, if tagName.None? then "$tag_name" else "$allowed_atts")
  {
    if tagName.None? || allowedAtts.None? then
      var property := if tagName.None? then "$tag_name" else "$allowed_atts";
      var message := MissingProperty(className, property);
      assert message == (className + " must have the ") + property + " property and it must be accessible.";
      assert message[..|className + " must have the "|] == className + " must have the ";
      ContainsJoined(className + " must have the ", property, " property and it must be accessible.");
      Some(message)
    else None
  }

  /** `Shortcode::__construct` for an object of class `className` whose
      properties hold `tagName` and `allowedAtts` (None when unset or null):
      either the exception it throws, or the registration of its tag. */
  method Construct(registry: ShortcodeRegistry, className: string, tagName: Option<string>,
                   allowedAtts: Option<map<string, Value>>)
    returns (thrown: Option<string>)
    modifies registry
    ensures thrown == ConstructionError(className, tagName, allowedAtts)
    ensures thrown.None? ==> registry.handlers == old(registry.handlers)[tagName.value := className]
    ensures thrown.Some? ==> registry.handlers == old(registry.handlers)
  {
    if tagName.None? || allowedAtts.None? {
      if tagName.None? {
        thrown := Some(MissingProperty(className, "$tag_name"));
      } else {
        thrown := Some(MissingProperty(className, "$allowed_atts"));
      }
      return;
    }
    thrown := None;
    registry.AddShortcode(tagName.value, className);
  }

  /** The two messages differ, so the caller can tell which property is missing. */
  lemma MissingPropertiesDistinguished(className: string)
    ensures MissingProperty(className, "$tag_name") != MissingProperty(className, "$allowed_atts")
  {
    var k := |className + " must have the "|;
    assert MissingProperty(className, "$tag_name")[k + 1] == 't';
    assert MissingProperty(className, "$allowed_atts")[k + 1] == 'a';
  }
}

/** The colour-and-icon picker: a selected icon and colour, two drop-down
    pickers of which at most one is open, the icon lists offered in each
    context and the predefined colour palette. */
module ColorIconPicker {
  import opened Wrappers
  import Seqs
  import Text

  const TASK_ICONS: seq<string> := [
    "create-outline", "fitness-outline", "walk-outline", "bicycle-outline",
    "book-outline", "cafe-outline", "restaurant-outline", "water-outline",
    "bed-outline", "alarm-outline", "calendar-outline", "cash-outline",
    "heart-outline", "medkit-outline", "call-outline", "mail-outline",
    "business-outline", "home-outline", "school-outline", "briefcase-outline",
    "barbell-outline", "basketball-outline", "musical-notes-outline", "brush-outline"
  ]

  const CUSTOMER_ICONS: seq<string> := [
    "person-outline", "people-outline", "business-outline", "briefcase-outline",
    "home-outline", "storefront-outline", "restaurant-outline", "medical-outline",
    "school-outline", "library-outline", "car-outline", "airplane-outline",
    "heart-outline", "star-outline", "diamond-outline", "trophy-outline",
    "shield-outline", "leaf-outline", "flower-outline", "sunny-outline",
    "moon-outline", "planet-outline", "rocket-outline", "gift-outline"
  ]

  const GENERAL_ICONS: seq<string> := [
    "create-outline", "person-outline", "people-outline", "business-outline",
    "home-outline", "heart-outline", "star-outline", "bookmark-outline",
    "flag-outline", "location-outline", "time-outline", "calendar-outline",
    "mail-outline", "call-outline", "chatbubble-outline", "notifications-outline",
    "settings-outline", "cog-outline", "build-outline", "hammer-outline",
    "brush-outline", "color-palette-outline", "image-outline", "camera-outline"
  ]

  /** An entry of the palette. */
  datatype ColorOption = ColorOption(value: string, name: string, category: string)

  const PRIMARY_COLORS: seq<ColorOption> := [
    ColorOption("#3880ff", "Blue", "primary"),
    ColorOption("#5260ff", "Indigo", "primary"),
    ColorOption("#7c4dff", "Purple", "primary"),
    ColorOption("#eb445a", "Red", "primary")
  ]

  const SECONDARY_COLORS: seq<ColorOption> := [
    ColorOption("#ff9800", "Orange", "secondary"),
    ColorOption("#ffcc00", "Yellow", "secondary"),
    ColorOption("#2dd36f", "Green", "secondary"),
    ColorOption("#00bcd4", "Cyan", "secondary")
  ]

  const NEUTRAL_COLORS: seq<ColorOption> := [
    ColorOption("#9e9e9e", "Gray", "neutral"),
    ColorOption("#607d8b", "Blue Gray", "neutral"),
    ColorOption("#795548", "Brown", "neutral"),
    ColorOption("#424242", "Dark Gray", "neutral")
  ]

  const PASTEL_COLORS: seq<ColorOption> := [
    ColorOption("#e1bee7", "Light Purple", "pastel"),
    ColorOption("#c8e6c9", "Light Green", "pastel"),
    ColorOption("#ffcdd2", "Light Red", "pastel"),
    ColorOption("#ffe0b2", "Light Orange", "pastel")
  ]

  /** `predefinedColors`, group by group. */
  const PREDEFINED_COLORS: seq<ColorOption> := PRIMARY_COLORS + SECONDARY_COLORS + NEUTRAL_COLORS + PASTEL_COLORS

  /** `colorCategories` */
  const COLOR_CATEGORIES: seq<string> := ["primary", "secondary", "neutral", "pastel"]

  /** `availableIcons`: the task list, the customer list, or the general
      list for any other context. */
  function AvailableIcons(context: string): (icons: seq<string>)
    ensures |icons| == 24
    ensures context != "task" && context != "customer" ==> icons == GENERAL_ICONS
  {
    match context
    case "task" => TASK_ICONS
    case "customer" => CUSTOMER_ICONS
    case _ => GENERAL_ICONS
  }

  /** `contextTitle` */
  function ContextTitle(context: string): (title: string)
    ensures title == "Appearance" <==> context != "task" && context != "customer"
  {
    match context
    case "task" => "Task Appearance"
    case "customer" => "Customer Appearance"
    case _ => "Appearance"
  }

  /** `getDefaultIcon` */
  function DefaultIcon(context: string): (icon: string)
    ensures icon != "" && icon != "create-outline" <==> context == "customer"
  {
    match context
    case "task" => "create-outline"
    case "customer" => "person-outline"
    case _ => "create-outline"
  }

  /** The default icon of every context is one the picker offers in it. */
  lemma DefaultIconIsOffered(context: string)
    ensures DefaultIcon(context) in AvailableIcons(context)
  {
    if context == "task" {
      assert TASK_ICONS[0] == DefaultIcon(context);
    } else if context == "customer" {
      assert CUSTOMER_ICONS[0] == DefaultIcon(context);
    } else {
      assert GENERAL_ICONS[0] == DefaultIcon(context);
    }
  }

  /** `predefinedColors.find(c => c.value === colorValue)` */
  function FindColor(colors: seq<ColorOption>, colorValue: string): (r: Option<nat>)
    ensures r.Some? ==> r.value < |colors| && colors[r.value].value == colorValue
    ensures r.Some? ==> forall j :: 0 <= j < r.value ==> colors[j].value != colorValue
    ensures r.None? ==> forall j :: 0 <= j < |colors| ==> colors[j].value != colorValue
  {
    if colors == [] then None
    else if colors[0].value == colorValue then Some(0)
    else match FindColor(colors[1..], colorValue)
      case None => None
      case Some(i) => Some(i + 1)
  }

  /** `getColorName` over a palette: the name of the first entry with that
      value, `Custom` when there is none. */
  function NameIn(colors: seq<ColorOption>, colorValue: string): (name: string)
    ensures (forall j :: 0 <= j < |colors| ==> colors[j].value != colorValue) ==> name == "Custom"
    ensures forall i :: (0 <= i < |colors| && colors[i].value == colorValue
                         && forall j :: 0 <= j < i ==> colors[j].value != colorValue)
                        ==> name == colors[i].name
  {
    match FindColor(colors, colorValue)
    case None => "Custom"
    case Some(i) => colors[i].name
  }

  /** `getColorName` */
  function ColorName(colorValue: string): string {
    NameIn(PREDEFINED_COLORS, colorValue)
  }

  /** No two palette entries share a value. */
  lemma PaletteValuesDistinct()
    ensures forall j, k :: 0 <= j < k < |PREDEFINED_COLORS| ==> PREDEFINED_COLORS[j].value != PREDEFINED_COLORS[k].value
  {
    var values := seq(|PREDEFINED_COLORS|, k requires 0 <= k < |PREDEFINED_COLORS| => PREDEFINED_COLORS[k].value);
    assert values == ["#3880ff", "#5260ff", "#7c4dff", "#eb445a", "#ff9800", "#ffcc00", "#2dd36f", "#00bcd4",
                      "#9e9e9e", "#607d8b", "#795548", "#424242", "#e1bee7", "#c8e6c9", "#ffcdd2", "#ffe0b2"];
    forall j, k | 0 <= j < k < |PREDEFINED_COLORS| ensures PREDEFINED_COLORS[j].value != PREDEFINED_COLORS[k].value {
      assert values[j] != values[k];
    }
  }

  /** Every palette colour is named by its own entry. */
  lemma ColorNameOfPaletteEntry(i: nat)
    requires i < |PREDEFINED_COLORS|
    ensures ColorName(PREDEFINED_COLORS[i].value) == PREDEFINED_COLORS[i].name
  {
    PaletteValuesDistinct();
    assert ColorName(PREDEFINED_COLORS[i].value) == NameIn(PREDEFINED_COLORS, PREDEFINED_COLORS[i].value);
  }

  predicate InCategory(category: string, c: ColorOption) {
    c.category == category
  }

  function CategoryFilter(category: string): ColorOption -> bool {
    c => InCategory(category, c)
  }

  /** `getColorsByCategory` */
  function ColorsByCategory(category: string): (r: seq<ColorOption>)
    ensures forall i :: 0 <= i < |r| ==> r[i] in PREDEFINED_COLORS && r[i].category == category
    ensures forall i :: 0 <= i < |PREDEFINED_COLORS| && PREDEFINED_COLORS[i].category == category ==> PREDEFINED_COLORS[i] in r
  {
    Seqs.Filter(CategoryFilter(category), PREDEFINED_COLORS)
  }

  /** Filtering one group of the palette by a category keeps the whole group
      when it is that category and nothing otherwise. */
  lemma FilterGroup(category: string, group: seq<ColorOption>, groupCategory: string)
    requires forall i :: 0 <= i < |group| ==> group[i].category == groupCategory
    ensures Seqs.Filter(CategoryFilter(category), group) == if category == groupCategory then group else []
  {
    var p := CategoryFilter(category);
    if category == groupCategory {
      Seqs.FilterAll(p, group);
    }
  }

  function Group(category: string, group: seq<ColorOption>, groupCategory: string): seq<ColorOption> {
    if category == groupCategory then group else []
  }

  /** A palette made of four single-category groups, filtered by a
      category, is the groups of that category. */
  lemma FilterGroups(category: string, g1: seq<ColorOption>, c1: string, g2: seq<ColorOption>, c2: string,
                     g3: seq<ColorOption>, c3: string, g4: seq<ColorOption>, c4: string)
    requires forall i :: 0 <= i < |g1| ==> g1[i].category == c1
    requires forall i :: 0 <= i < |g2| ==> g2[i].category == c2
    requires forall i :: 0 <= i < |g3| ==> g3[i].category == c3
    requires forall i :: 0 <= i < |g4| ==> g4[i].category == c4
    ensures Seqs.Filter(CategoryFilter(category), g1 + g2 + g3 + g4)
            == Group(category, g1, c1) + Group(category, g2, c2) + Group(category, g3, c3) + Group(category, g4, c4)
  {
    var p := CategoryFilter(category);
    Seqs.FilterConcat(p, g1 + g2 + g3, g4);
    Seqs.FilterConcat(p, g1 + g2, g3);
    Seqs.FilterConcat(p, g1, g2);
    FilterGroup(category, g1, c1);
    FilterGroup(category, g2, c2);
    FilterGroup(category, g3, c3);
    FilterGroup(category, g4, c4);
  }

  lemma ColorsByCategoryGroups(category: string)
    ensures ColorsByCategory(category) == Group(category, PRIMARY_COLORS, "primary") + Group(category, SECONDARY_COLORS, "secondary")
                                          + Group(category, NEUTRAL_COLORS, "neutral") + Group(category, PASTEL_COLORS, "pastel")
  {
    FilterGroups(category, PRIMARY_COLORS, "primary", SECONDARY_COLORS, "secondary",
                 NEUTRAL_COLORS, "neutral", PASTEL_COLORS, "pastel");
  }

  /** The palette is exactly its four categories, each listed in palette
      order; a category outside them has no colours. */
  lemma ColorsByCategoryPartitionsPalette(category: string)
    ensures ColorsByCategory("primary") == PRIMARY_COLORS
    ensures ColorsByCategory("secondary") == SECONDARY_COLORS
    ensures ColorsByCategory("neutral") == NEUTRAL_COLORS
    ensures ColorsByCategory("pastel") == PASTEL_COLORS
    ensures category !in COLOR_CATEGORIES ==> ColorsByCategory(category) == []
  {
    PrimaryColorsByCategory();
    SecondaryColorsByCategory();
    NeutralColorsByCategory();
    PastelColorsByCategory();
    if category !in COLOR_CATEGORIES {
      OtherColorsByCategory(category);
    }
  }

  lemma PrimaryColorsByCategory()
    ensures ColorsByCategory("primary") == PRIMARY_COLORS
  {
    ColorsByCategoryGroups("primary");
  }

  lemma SecondaryColorsByCategory()
    ensures ColorsByCategory("secondary") == SECONDARY_COLORS
  {
    ColorsByCategoryGroups("secondary");
  }

  lemma NeutralColorsByCategory()
    ensures ColorsByCategory("neutral") == NEUTRAL_COLORS
  {
    ColorsByCategoryGroups("neutral");
  }

  lemma PastelColorsByCategory()
    ensures ColorsByCategory("pastel") == PASTEL_COLORS
  {
    ColorsByCategoryGroups("pastel");
  }

  lemma OtherColorsByCategory(category: string)
    requires category !in COLOR_CATEGORIES
    ensures ColorsByCategory(category) == []
  {
    ColorsByCategoryGroups(category);
  }

  /** `getCategoryDisplayName`: the four categories capitalised, any other
      text returned as it is. */
  function CategoryDisplayName(category: string): (name: string)
    ensures category !in COLOR_CATEGORIES ==> name == category
    ensures category in COLOR_CATEGORIES ==> |name| == |category| && name[1..] == category[1..]
    ensures category in COLOR_CATEGORIES ==> name == Text.ToUpper(category[..1]) + category[1..]
  {
    match category
    case "primary" => "Primary"
    case "secondary" => "Secondary"
    case "neutral" => "Neutral"
    case "pastel" => "Pastel"
    case _ => category
  }

  class ColorIconPickerComponent {
    var selectedIcon: string
    var selectedColor: string
    var context: string
    var showIconPicker: bool
    var showColorPicker: bool
    /** What `iconChange` and `colorChange` have emitted, oldest first. */
    var emittedIcons: seq<string>
    var emittedColors: seq<string>

    /** The two pickers are never open together. */
    ghost predicate Valid()
      reads this
    {
      !(showIconPicker && showColorPicker)
    }

    /** The component with its input defaults. */
    constructor ()
      ensures Valid() && !showIconPicker && !showColorPicker
      ensures selectedIcon == "person-outline" && selectedColor == "#3880ff" && context == "general"
      ensures emittedIcons == [] && emittedColors == []
    {
      selectedIcon := "person-outline";
      selectedColor := "#3880ff";
      context := "general";
      showIconPicker := false;
      showColorPicker := false;
      emittedIcons := [];
      emittedColors := [];
    }

    /** `ngOnInit`: an empty icon or the generic `create-outline` is
        replaced by the context's default, which the picker offers. */
    method Init()
      modifies this`selectedIcon
      ensures old(selectedIcon) == "" || old(selectedIcon) == "create-outline" ==>
        selectedIcon == DefaultIcon(context) && selectedIcon in AvailableIcons(context)
      ensures !(old(selectedIcon) == "" || old(selectedIcon) == "create-outline") ==> selectedIcon == old(selectedIcon)
      ensures selectedIcon != ""
    {
      if selectedIcon == "" || selectedIcon == "create-outline" {
        selectedIcon := DefaultIcon(context);
        DefaultIconIsOffered(context);
      }
    }

    /** `selectIcon`: records and emits the icon and closes the icon picker. */
    method SelectIcon(icon: string)
      modifies this`selectedIcon, this`emittedIcons, this`showIconPicker
      ensures Valid()
      ensures selectedIcon == icon && emittedIcons == old(emittedIcons) + [icon] && !showIconPicker
    {
      selectedIcon := icon;
      emittedIcons := emittedIcons + [icon];
      showIconPicker := false;
    }

    /** `selectColor`: records and emits the colour and closes the colour
        picker. */
    method SelectColor(color: string)
      modifies this`selectedColor, this`emittedColors, this`showColorPicker
      ensures Valid()
      ensures selectedColor == color && emittedColors == old(emittedColors) + [color] && !showColorPicker
    {
      selectedColor := color;
      emittedColors := emittedColors + [color];
      showColorPicker := false;
    }

    /** `toggleIconPicker`: flips the icon picker and, when it opens, closes
        the colour picker. */
    method ToggleIconPicker()
      modifies this`showIconPicker, this`showColorPicker
      ensures Valid()
      ensures showIconPicker == !old(showIconPicker)
      ensures showColorPicker == (old(showColorPicker) && !showIconPicker)
    {
      showIconPicker := !showIconPicker;
      if showIconPicker {
        showColorPicker := false;
      }
    }

    /** `toggleColorPicker`, the same for the colour picker. */
    method ToggleColorPicker()
      modifies this`showIconPicker, this`showColorPicker
      ensures Valid()
      ensures showColorPicker == !old(showColorPicker)
      ensures showIconPicker == (old(showIconPicker) && !showColorPicker)
    {
      showColorPicker := !showColorPicker;
      if showColorPicker {
        showIconPicker := false;
      }
    }
  }
}

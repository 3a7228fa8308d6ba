/**
 * The project modal and its image gallery. A click on a project card looks its
 * trimmed title up in the project table, seeds the gallery images' roles, lights the
 * first dot and opens the modal; the arrow buttons and keys move the active image
 * with `updateGallery`; Escape, the close button and the backdrop close the modal.
 * The project table is abstracted to a map from title to the number of images; the
 * page's DOM elements become the fields below.
 */
module Modal {
  import opened Wrappers
  import opened JsText
  import opened Gallery

  class ProjectModal {
    /** `projectsData`: for every project title, how many gallery images it has. */
    const projects: map<string, nat>
    /** The `active` flags of the page's `.gallery-dot` elements (fixed by the markup). */
    const dots: array<bool>
    /** `currentProject`, identified by its title; None until a card is clicked. */
    var currentProject: Option<string>
    var currentImgIndex: int
    /** The roles of the `.gallery-item` images, rebuilt when a project is loaded. */
    var images: array<Role>
    /** The modal carries the `open` class. */
    var isOpen: bool
    /** The page body's overflow is "hidden". */
    var scrollLocked: bool

    /**
     * Once a project is loaded the images are its images, the index is in range
     * (when there is an image), every image has the role the index gives it, the dot
     * of the index is the only one lit; the scroll lock follows the modal.
     */
    ghost predicate Valid()
      reads this, images, dots
    {
      && (currentProject.Some? ==>
            && currentProject.value in projects
            && images.Length == projects[currentProject.value]
            && ShowsImage(currentImgIndex))
      && scrollLocked == isOpen
    }

    /** The number of images of the current project. */
    function Total(): nat
      reads this
      requires currentProject.Some? && currentProject.value in projects
    {
      projects[currentProject.value]
    }

    /** The gallery shows image `k`: index, image roles and dots all agree with it. */
    ghost predicate ShowsImage(k: int)
      reads this, images, dots
      requires currentProject.Some? && currentProject.value in projects
    {
      && currentImgIndex == k
      && (Total() > 0 ==> 0 <= k < Total() && images.Length == Total() && images[..] == Roles(k, Total()))
      && dots[..] == DotFlags(k, dots.Length)
    }

    /** The page load: no project, modal closed, dots as the markup has them. */
    constructor (projects: map<string, nat>, markupDots: seq<bool>)
      ensures Valid() && fresh(dots) && fresh(images)
      ensures this.projects == projects && dots[..] == markupDots
      ensures currentProject == None && currentImgIndex == 0 && !isOpen
    {
      this.projects := projects;
      dots := new bool[|markupDots|](i requires 0 <= i < |markupDots| => markupDots[i]);
      images := new Role[0];
      currentProject := None;
      currentImgIndex := 0;
      isOpen := false;
      scrollLocked := false;
    }

    /** `updateDots(index)`: dot `i` is lit exactly when `i == index`. */
    method UpdateDots(index: int)
      modifies dots
      ensures dots[..] == DotFlags(index, dots.Length)
    {
      for i := 0 to dots.Length
        invariant forall j :: 0 <= j < i ==> dots[j] == (j == index)
      {
        dots[i] := i == index;
      }
    }

    /**
     * `updateGallery(newIndex)`: wrap the index, give every image its role, light
     * its dot. Without a current project nothing changes.
     */
    method UpdateGallery(newIndex: int)
      requires Valid()
      modifies this, images, dots
      ensures Valid()
      ensures currentProject == old(currentProject) && images == old(images)
      ensures isOpen == old(isOpen) && scrollLocked == old(scrollLocked)
      ensures old(currentProject).None? ==> currentImgIndex == old(currentImgIndex) && unchanged(images) && unchanged(dots)
      ensures old(currentProject).Some? ==> ShowsImage(Wrap(newIndex, Total()))
    {
      if currentProject.None? {
        return;
      }
      var total: int := projects[currentProject.value];
      var k: int := newIndex;
      if k < 0 {
        k := total - 1;
      }
      if k >= total {
        k := 0;
      }
      currentImgIndex := k;
      for i := 0 to images.Length
        invariant forall j :: 0 <= j < i ==> images[j] == RoleAt(j, k, total)
        modifies images
      {
        images[i] := Plain;
        if i == k {
          images[i] := Active;
        } else if i == (k + 1) % total {
          images[i] := Next;
        } else if i == (k - 1 + total) % total {
          images[i] := Prev;
        }
      }
      assert total > 0 ==> images[..] == Roles(k, total);
      UpdateDots(k);
    }

    /**
     * `loadModalData`: replace the gallery images by the project's, the first active,
     * the second `next`, the last `prev` when there are three or more, and light the
     * first dot.
     */
    method LoadModalData(title: string)
      requires title in projects && currentProject == Some(title)
      modifies this, dots
      ensures fresh(images) && images.Length == projects[title]
      ensures images[..] == InitialRoles(projects[title])
      ensures dots[..] == DotFlags(0, dots.Length)
      ensures currentProject == old(currentProject) && currentImgIndex == old(currentImgIndex)
      ensures isOpen == old(isOpen) && scrollLocked == old(scrollLocked)
    {
      var total := projects[title];
      images := new Role[total](_ => Plain);
      for i := 0 to total
        invariant forall j :: 0 <= j < i ==> images[j] == InitialRole(j, total)
        invariant forall j :: i <= j < total ==> images[j] == Plain
        modifies images
      {
        if i == 0 {
          images[i] := Active;
        } else if i == 1 {
          images[i] := Next;
        } else if i == total - 1 {
          images[i] := Prev;
        }
      }
      assert images[..] == InitialRoles(total);
      UpdateDots(0);
    }

    /** `openModal`: show the modal and lock the page's scrolling. */
    method OpenModal()
      modifies this
      ensures isOpen && scrollLocked
      ensures currentProject == old(currentProject) && currentImgIndex == old(currentImgIndex) && images == old(images)
    {
      isOpen := true;
      scrollLocked := true;
    }

    /** `closeModal` (also the close button and the backdrop): hide the modal, unlock scrolling. */
    method CloseModal()
      modifies this
      ensures !isOpen && !scrollLocked
      ensures currentProject == old(currentProject) && currentImgIndex == old(currentImgIndex) && images == old(images)
    {
      isOpen := false;
      scrollLocked := false;
    }

    /**
     * A click on a project card whose heading reads `cardTitle`. A known (trimmed)
     * title loads that project at its first image and opens the modal; an unknown
     * title changes nothing.
     */
    method ClickCard(cardTitle: string)
      requires Valid()
      modifies this, dots
      ensures Valid()
      ensures Trim(cardTitle) in projects ==>
                && currentProject == Some(Trim(cardTitle)) && currentImgIndex == 0
                && isOpen && scrollLocked && fresh(images)
                && images[..] == InitialRoles(projects[Trim(cardTitle)])
                && ShowsImage(0)
      ensures Trim(cardTitle) !in projects ==> unchanged(this) && unchanged(dots)
    {
      var title := Trim(cardTitle);
      if title in projects {
        currentProject := Some(title);
        currentImgIndex := 0;
        LoadModalData(title);
        InitialRolesAreFirstImage(projects[title]);
        OpenModal();
      }
    }

    /** The gallery's previous-image button. */
    method ClickPrev()
      requires Valid()
      modifies this, images, dots
      ensures Valid()
      ensures currentProject == old(currentProject) && images == old(images) && isOpen == old(isOpen)
      ensures old(currentProject).None? ==> currentImgIndex == old(currentImgIndex) && unchanged(images) && unchanged(dots)
      ensures old(currentProject).Some? ==> ShowsImage(Wrap(old(currentImgIndex) - 1, Total()))
    {
      UpdateGallery(currentImgIndex - 1);
    }

    /** The gallery's next-image button. */
    method ClickNext()
      requires Valid()
      modifies this, images, dots
      ensures Valid()
      ensures currentProject == old(currentProject) && images == old(images) && isOpen == old(isOpen)
      ensures old(currentProject).None? ==> currentImgIndex == old(currentImgIndex) && unchanged(images) && unchanged(dots)
      ensures old(currentProject).Some? ==> ShowsImage(Wrap(old(currentImgIndex) + 1, Total()))
    {
      UpdateGallery(currentImgIndex + 1);
    }

    /**
     * The page's keydown handler. While the modal is closed every key is ignored;
     * Escape closes it; ArrowLeft and ArrowRight move to the previous and next image;
     * any other key changes nothing.
     */
    method KeyDown(key: string)
      requires Valid()
      modifies this, images, dots
      ensures Valid()
      ensures currentProject == old(currentProject) && images == old(images)
      ensures !old(isOpen) ==> unchanged(this) && unchanged(images) && unchanged(dots)
      ensures old(isOpen) && key == "Escape" ==>
                !isOpen && !scrollLocked && currentImgIndex == old(currentImgIndex) && unchanged(images) && unchanged(dots)
      ensures old(isOpen) && key == "ArrowLeft" ==>
                isOpen && (old(currentProject).Some? ==> ShowsImage(Wrap(old(currentImgIndex) - 1, Total())))
      ensures old(isOpen) && key == "ArrowRight" ==>
                isOpen && (old(currentProject).Some? ==> ShowsImage(Wrap(old(currentImgIndex) + 1, Total())))
      ensures old(isOpen) && (key == "ArrowLeft" || key == "ArrowRight") && old(currentProject).None? ==>
                currentImgIndex == old(currentImgIndex) && unchanged(images) && unchanged(dots)
      ensures old(isOpen) && key != "Escape" && key != "ArrowLeft" && key != "ArrowRight" ==>
                unchanged(this) && unchanged(images) && unchanged(dots)
    {
      if !isOpen {
        return;
      }
      if key == "Escape" {
        CloseModal();
      }
      if key == "ArrowLeft" {
        UpdateGallery(currentImgIndex - 1);
      }
      if key == "ArrowRight" {
        UpdateGallery(currentImgIndex + 1);
      }
    }
  }
}

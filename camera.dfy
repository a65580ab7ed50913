/** `Camera`: projection, view and their product, cached behind two dirty
    flags. Matrices are symbolic: they record the inputs they were built from. */
module Cameras {
  import opened Common

  /** `math::d2r(30.0f)`, the default vertical field of view in radians. */
  const DEFAULT_FOV: real := 0.5235988

  class Camera {
    var fov: real
    var clipPlane: real
    var aspectXY: real
    var position: Vec3
    /** Euler angles in radians. */
    var heading: Vec3
    var view: Matrix
    var proj: Matrix
    var vp: Matrix
    var viewDirty: bool
    var projDirty: bool

    /** The projection the current parameters call for. */
    function WantedProj(): Matrix
      reads this
    {
      Perspective(fov / 2.0, aspectXY, clipPlane)
    }

    /** The view the current position and heading call for. */
    function WantedView(): Matrix
      reads this
    {
      LookFrom(position, heading)
    }

    /** A clear flag means its matrix is up to date. */
    predicate Current()
      reads this
    {
      (!projDirty ==> proj == WantedProj()) && (!viewDirty ==> view == WantedView())
    }

    /** `Camera(pos, rot)`: both flags start set, so the first `pre_render`
        builds every matrix. */
    constructor (pos: Vec3, rot: Vec3)
      ensures position == pos && heading == rot
      ensures fov == DEFAULT_FOV && clipPlane == 0.5 && aspectXY == 1.0
      ensures viewDirty && projDirty && Current()
    {
      fov, clipPlane, aspectXY := DEFAULT_FOV, 0.5, 1.0;
      position, heading := pos, rot;
      view, proj, vp := Identity, Identity, Identity;
      viewDirty, projDirty := true, true;
    }

    /** `set_aspect_xy`: only a different value is stored, and it marks the
        projection dirty. */
    method SetAspectXY(newAspect: real)
      modifies this
      ensures newAspect == old(aspectXY) ==> unchanged(this)
      ensures newAspect != old(aspectXY) ==> aspectXY == newAspect && projDirty
      ensures fov == old(fov) && clipPlane == old(clipPlane) && position == old(position) && heading == old(heading)
      ensures view == old(view) && proj == old(proj) && vp == old(vp) && viewDirty == old(viewDirty)
      ensures old(Current()) ==> Current()
    {
      if newAspect != aspectXY {
        aspectXY := newAspect;
        projDirty := true;
      }
    }

    /** `update_proj`: touches only `proj` and its flag. */
    method UpdateProj()
      modifies this
      ensures proj == WantedProj() && !projDirty
      ensures fov == old(fov) && clipPlane == old(clipPlane) && aspectXY == old(aspectXY)
      ensures position == old(position) && heading == old(heading)
      ensures view == old(view) && vp == old(vp) && viewDirty == old(viewDirty)
      ensures old(Current()) ==> Current()
    {
      proj := Perspective(fov / 2.0, aspectXY, clipPlane);
      projDirty := false;
    }

    /** `update_view`: touches only `view` and its flag. */
    method UpdateView()
      modifies this
      ensures view == WantedView() && !viewDirty
      ensures fov == old(fov) && clipPlane == old(clipPlane) && aspectXY == old(aspectXY)
      ensures position == old(position) && heading == old(heading)
      ensures proj == old(proj) && vp == old(vp) && projDirty == old(projDirty)
      ensures old(Current()) ==> Current()
    {
      view := LookFrom(position, heading);
      viewDirty := false;
    }

    /** `pre_render`: whatever is dirty is rebuilt, `vp` is rebuilt exactly
        when something was dirty, and both flags end clear. From a current
        camera, the rebuilt `vp` is the product the parameters call for. */
    method PreRender()
      modifies this
      ensures !projDirty && !viewDirty
      ensures proj == (if old(projDirty) then WantedProj() else old(proj))
      ensures view == (if old(viewDirty) then WantedView() else old(view))
      ensures vp == (if old(projDirty) || old(viewDirty) then Product(proj, view) else old(vp))
      ensures old(Current()) ==> Current() && proj == WantedProj() && view == WantedView()
      ensures old(Current()) && (old(projDirty) || old(viewDirty)) ==> vp == Product(WantedProj(), WantedView())
      ensures !old(projDirty) && !old(viewDirty) ==> unchanged(this)
      ensures fov == old(fov) && clipPlane == old(clipPlane) && aspectXY == old(aspectXY)
      ensures position == old(position) && heading == old(heading)
    {
      var updateVp := projDirty || viewDirty;
      if projDirty {
        UpdateProj();
      }
      if viewDirty {
        UpdateView();
      }
      if updateVp {
        vp := Product(proj, view);
      }
    }
  }
}
